/** jQuery.event: the handler list that one element keeps for one type of event. */
module EventHandlers {
  import opened Wrappers
  import opened Namespaces
  import Selectors

  type Document = Selectors.Document

  /** `guid` identifies the handler function; `namespace` holds the sorted names joined by dots. */
  datatype HandleObj = HandleObj(origType: string, guid: nat, selector: Option<string>, namespace: string)

  /** What `event.remove` was asked to remove: absent parts match everything. `mappedTypes` is
      set when the types are taken from the element itself. */
  datatype Request = Request(origType: string, mappedTypes: bool, guid: Option<nat>, namespaces: seq<string>, selector: Option<string>)

  /** The condition of the removal loop. */
  predicate Matches(r: Request, h: HandleObj) {
    && (r.mappedTypes || r.origType == h.origType)
    && (r.guid.None? || r.guid.value == h.guid)
    && (r.namespaces == [] || RegexTest(r.namespaces, h.namespace))
    && (r.selector.None? || r.selector == h.selector || (r.selector.value == "**" && h.selector.Some?))
  }

  function Delegates(hs: seq<HandleObj>): seq<HandleObj> {
    if hs == [] then [] else
      var k := |hs| - 1;
      if hs[k].selector.Some? then Delegates(hs[..k]) + [hs[k]] else Delegates(hs[..k])
  }

  function Directs(hs: seq<HandleObj>): seq<HandleObj> {
    if hs == [] then [] else
      var k := |hs| - 1;
      if hs[k].selector.None? then Directs(hs[..k]) + [hs[k]] else Directs(hs[..k])
  }

  /** What is left after a removal. */
  function Without(r: Request, hs: seq<HandleObj>): seq<HandleObj> {
    if hs == [] then [] else
      var k := |hs| - 1;
      if Matches(r, hs[k]) then Without(r, hs[..k]) else Without(r, hs[..k]) + [hs[k]]
  }

  /** A request by namespaces takes exactly the handlers that carry all of them. */
  lemma MatchesByNames(r: Request, h: HandleObj, parts: seq<string>)
    requires r.namespaces != [] && parts != [] && h.namespace == Join(parts)
    requires Undotted(r.namespaces) && Undotted(parts) && StrictlySorted(r.namespaces) && StrictlySorted(parts)
    ensures Matches(r, h) <==> Matches(r.(namespaces := []), h) && Includes(parts, r.namespaces)
  {
    RegexSelects(r.namespaces, parts);
  }

  datatype Op = Bind(h: HandleObj) | Unbind(r: Request)

  /** What is registered after a series of operations, in the order of registration. */
  function Live(ops: seq<Op>): seq<HandleObj> {
    if ops == [] then [] else
      var before := Live(ops[..|ops| - 1]);
      match ops[|ops| - 1]
      case Bind(h) => before + [h]
      case Unbind(r) => Without(r, before)
  }

  // Splitting commutes with adding and removing.

  lemma SplitAppend(hs: seq<HandleObj>, h: HandleObj)
    ensures Delegates(hs + [h]) == if h.selector.Some? then Delegates(hs) + [h] else Delegates(hs)
    ensures Directs(hs + [h]) == if h.selector.Some? then Directs(hs) else Directs(hs) + [h]
  {
    assert (hs + [h])[..|hs|] == hs;
  }

  lemma {:induction false} WithoutConcat(r: Request, a: seq<HandleObj>, b: seq<HandleObj>)
    ensures Without(r, a + b) == Without(r, a) + Without(r, b)
  {
    if b == [] {
      assert a + b == a;
    } else {
      var k := |b| - 1;
      assert (a + b)[..|a + b| - 1] == a + b[..k];
      WithoutConcat(r, a, b[..k]);
    }
  }

  lemma WithoutAppend(r: Request, hs: seq<HandleObj>, h: HandleObj)
    ensures Without(r, hs + [h]) == if Matches(r, h) then Without(r, hs) else Without(r, hs) + [h]
  {
    assert (hs + [h])[..|hs|] == hs;
  }

  lemma {:induction false} SplitWithout(r: Request, hs: seq<HandleObj>)
    ensures Delegates(Without(r, hs)) == Without(r, Delegates(hs))
    ensures Directs(Without(r, hs)) == Without(r, Directs(hs))
  {
    if hs != [] {
      var k := |hs| - 1;
      SplitWithout(r, hs[..k]);
      SplitAppend(Without(r, hs[..k]), hs[k]);
      WithoutAppend(r, Delegates(hs[..k]), hs[k]);
      WithoutAppend(r, Directs(hs[..k]), hs[k]);
    }
  }

  lemma {:induction false} SplitKinds(hs: seq<HandleObj>)
    ensures forall i :: 0 <= i < |Delegates(hs)| ==> Delegates(hs)[i].selector.Some?
    ensures forall i :: 0 <= i < |Directs(hs)| ==> Directs(hs)[i].selector.None?
  {
    if hs != [] { SplitKinds(hs[..|hs| - 1]); }
  }

  function CountDelegates(hs: seq<HandleObj>): nat {
    |Delegates(hs)|
  }

  lemma {:induction false} CountConcat(a: seq<HandleObj>, b: seq<HandleObj>)
    ensures CountDelegates(a + b) == CountDelegates(a) + CountDelegates(b)
  {
    if b == [] {
      assert a + b == a;
    } else {
      var k := |b| - 1;
      assert (a + b)[..|a + b| - 1] == a + b[..k];
      CountConcat(a, b[..k]);
    }
  }

  lemma {:induction false} AllDelegates(hs: seq<HandleObj>)
    requires forall i :: 0 <= i < |hs| ==> hs[i].selector.Some?
    ensures Delegates(hs) == hs
  {
    if hs != [] { AllDelegates(hs[..|hs| - 1]); }
  }

  lemma {:induction false} NoDelegates(hs: seq<HandleObj>)
    requires forall i :: 0 <= i < |hs| ==> hs[i].selector.None?
    ensures Delegates(hs) == []
  {
    if hs != [] { NoDelegates(hs[..|hs| - 1]); }
  }

  lemma SpliceStep(r: Request, all: seq<HandleObj>, j: nat)
    requires j < |all|
    ensures var rest := Without(r, all[j + 1..]);
            && all[..j + 1] + rest == all[..j] + ([all[j]] + rest)
            && Without(r, all[j..]) == (if Matches(r, all[j]) then rest else [all[j]] + rest)
            && CountDelegates(all[..j + 1] + rest) == CountDelegates(all[..j] + rest) + (if all[j].selector.Some? then 1 else 0)
  {
    var rest, h := Without(r, all[j + 1..]), all[j];
    assert all[..j + 1] == all[..j] + [h] && all[j..] == [h] + all[j + 1..];
    WithoutConcat(r, [h], all[j + 1..]);
    assert [h][..0] == [];
    CountSplice(all[..j], h, rest);
  }

  lemma CountSplice(front: seq<HandleObj>, h: HandleObj, rest: seq<HandleObj>)
    ensures CountDelegates(front + [h] + rest) == CountDelegates(front + rest) + (if h.selector.Some? then 1 else 0)
  {
    CountConcat(front + [h], rest);
    CountConcat(front, [h]);
    CountConcat(front, rest);
  }

  // Dispatch.

  datatype Batch = Batch(elem: nat, handlers: seq<HandleObj>)

  /** Whether an element matches a delegate's selector below the listening element. */
  type Finder = (string, nat) -> bool

  /** The delegates, in list order, that an element triggers. */
  function Triggered(found: Finder, delegates: seq<HandleObj>, elem: nat): seq<HandleObj> {
    if delegates == [] then [] else
      var k := |delegates| - 1;
      var h := delegates[k];
      if h.selector.Some? && found(h.selector.value, elem) then Triggered(found, delegates[..k], elem) + [h]
      else Triggered(found, delegates[..k], elem)
  }

  /** What event.handlers looks at: the node the event happened on, whether it is a click and
      with which button, and the elements that are disabled. */
  datatype Event = Event(target: nat, click: bool, button: nat, disabled: set<nat>) {
    /** Clicks of other buttons than the left one reach no delegates. */
    predicate Delegable() {
      button == 0 || !click
    }
  }

  /** Delegates are considered on elements that are not disabled elements receiving a click. */
  predicate Eligible(dom: Document, e: Event, n: nat)
    requires n < |dom.element|
  {
    dom.element[n] && (n !in e.disabled || !e.click)
  }

  ghost predicate AtOrAbove(dom: Document, p: int, n: nat)
    requires dom.Valid() && n < |dom.parent|
  {
    p == n || dom.Ancestor(p, n)
  }

  /** The nodes from the target up to just below `self`, or up to the root when `self` is not above. */
  ghost predicate OnWay(dom: Document, self: nat, target: nat, n: nat)
    requires dom.Valid() && self < |dom.parent| && target < |dom.parent|
  {
    AtOrAbove(dom, n, target) && (AtOrAbove(dom, self, target) ==> !AtOrAbove(dom, n, self))
  }

  ghost predicate Fires(found: Finder, delegates: seq<HandleObj>, dom: Document, e: Event, self: nat, n: nat)
    requires dom.Valid() && self < |dom.parent| && e.target < |dom.parent|
  {
    n < |dom.parent| && OnWay(dom, self, e.target, n) && Eligible(dom, e, n) && Triggered(found, delegates, n) != []
  }

  /** One batch for exactly each eligible node on the way that triggers something, innermost first:
      every node is a proper descendant of the next, and of `self` when the target is. */
  ghost predicate Climbed(found: Finder, delegates: seq<HandleObj>, dom: Document, e: Event, self: nat, queue: seq<Batch>)
    requires dom.Valid() && self < |dom.parent| && e.target < |dom.parent|
  {
    && (forall i :: 0 <= i < |queue| ==>
          Fires(found, delegates, dom, e, self, queue[i].elem) && queue[i].handlers == Triggered(found, delegates, queue[i].elem))
    && (forall n: nat :: Fires(found, delegates, dom, e, self, n) ==> exists i :: 0 <= i < |queue| && queue[i].elem == n)
    && (forall i :: 0 < i < |queue| ==> dom.Ancestor(queue[i].elem, queue[i - 1].elem))
    && (AtOrAbove(dom, self, e.target) ==> forall i :: 0 <= i < |queue| ==> dom.Ancestor(self, queue[i].elem))
  }

  /** The whole queue: the batches of the climb, and behind them the direct handlers. */
  ghost predicate Dispatched(found: Finder, live: seq<HandleObj>, dom: Document, e: Event, self: nat, queue: seq<Batch>)
    requires dom.Valid() && self < |dom.parent| && e.target < |dom.parent|
  {
    var k := |queue| - if Directs(live) != [] then 1 else 0;
    && k >= 0
    && (if e.Delegable() then Climbed(found, Delegates(live), dom, e, self, queue[..k]) else k == 0)
    && (Directs(live) != [] ==> queue[k] == Batch(self, Directs(live)))
  }

  lemma DirectsLast(found: Finder, live: seq<HandleObj>, dom: Document, e: Event, self: nat, climbed: seq<Batch>)
    requires dom.Valid() && self < |dom.parent| && e.target < |dom.parent|
    requires if e.Delegable() then Climbed(found, Delegates(live), dom, e, self, climbed) else climbed == []
    ensures Directs(live) == [] ==> Dispatched(found, live, dom, e, self, climbed)
    ensures Directs(live) != [] ==> Dispatched(found, live, dom, e, self, climbed + [Batch(self, Directs(live))])
  {
    if Directs(live) == [] {
      assert climbed[..|climbed|] == climbed;
    } else {
      var queue := climbed + [Batch(self, Directs(live))];
      assert queue[..|queue| - 1] == climbed && queue[|queue| - 1] == Batch(self, Directs(live));
    }
  }

  lemma NothingFires(found: Finder, dom: Document, e: Event, self: nat)
    requires dom.Valid() && self < |dom.parent| && e.target < |dom.parent|
    ensures Climbed(found, [], dom, e, self, [])
  {
  }

  lemma {:induction false} AncestorIsSmaller(dom: Document, p: int, n: nat)
    requires dom.Valid() && n < |dom.parent| && dom.Ancestor(p, n)
    ensures 0 <= p < n
    decreases n
  {
    if dom.parent[n] != p {
      AncestorIsSmaller(dom, p, dom.parent[n]);
    }
  }

  lemma {:induction false} AncestorsAncestor(dom: Document, p: int, q: nat, n: nat)
    requires dom.Valid() && q < |dom.parent| && n < |dom.parent| && dom.Ancestor(p, q) && dom.Ancestor(q, n)
    ensures dom.Ancestor(p, n)
    decreases n
  {
    if dom.parent[n] != q {
      AncestorsAncestor(dom, p, q, dom.parent[n]);
    }
  }

  class HandlerList {
    var handlers: seq<HandleObj>
    var delegateCount: nat
    /** The handlers that are registered, in the order in which they were added. */
    ghost var live: seq<HandleObj>

    constructor ()
      ensures Valid() && live == []
    {
      handlers, delegateCount, live := [], 0, [];
    }

    /** Delegates in front, direct handlers behind, each in the order of registration. */
    ghost predicate Valid()
      reads this
    {
      handlers == Delegates(live) + Directs(live) && delegateCount == |Delegates(live)|
    }

    method Add(h: HandleObj)
      requires Valid()
      modifies this
      ensures Valid() && live == old(live) + [h]
    {
      SplitAppend(live, h);
      if h.selector.Some? {
        handlers := handlers[..delegateCount] + [h] + handlers[delegateCount..];
        delegateCount := delegateCount + 1;
      } else {
        handlers := handlers + [h];
      }
      live := live + [h];
    }

    method Remove(r: Request)
      requires Valid()
      modifies this
      ensures Valid() && live == Without(r, old(live))
    {
      SplitKinds(live);
      AllDelegates(Delegates(live));
      NoDelegates(Directs(live));
      CountConcat(Delegates(live), Directs(live));
      RemoveMatching(r);
      WithoutConcat(r, Delegates(live), Directs(live));
      SplitWithout(r, live);
      live := Without(r, live);
      SplitKinds(live);
      AllDelegates(Delegates(live));
      NoDelegates(Directs(live));
      CountConcat(Delegates(live), Directs(live));
    }

    /** Goes through the array from its end and takes out what matches. */
    method RemoveMatching(r: Request)
      requires delegateCount == CountDelegates(handlers)
      modifies this`handlers, this`delegateCount
      ensures handlers == Without(r, old(handlers)) && delegateCount == CountDelegates(handlers)
    {
      ghost var all := handlers;
      var j := |handlers|;
      assert all[j..] == [] && all[..j] == all;
      while j > 0
        invariant 0 <= j <= |all| && handlers == all[..j] + Without(r, all[j..])
        invariant delegateCount == CountDelegates(handlers)
      {
        j := j - 1;
        SpliceStep(r, all, j);
        var h := handlers[j];
        assert handlers[..j] == all[..j] && handlers[j + 1..] == Without(r, all[j + 1..]);
        if Matches(r, h) {
          handlers := handlers[..j] + handlers[j + 1..];
          if h.selector.Some? {
            delegateCount := delegateCount - 1;
          }
        }
      }
      assert all[0..] == all;
    }

    /** The handlers an event has to run on its way up to `self`: the delegates that fire, and
        then those bound to `self` directly. */
    method Dispatch(found: Finder, dom: Document, e: Event, self: nat) returns (queue: seq<Batch>)
      requires Valid()
      requires dom.Valid() && self < |dom.parent| && e.target < |dom.parent|
      ensures Dispatched(found, live, dom, e, self, queue)
    {
      SplitKinds(live);
      assert handlers[..delegateCount] == Delegates(live) && handlers[delegateCount..] == Directs(live);
      queue := [];
      NothingFires(found, dom, e, self);
      if delegateCount != 0 && e.Delegable() {
        queue := Climb(found, handlers[..delegateCount], dom, e, self);
      }
      DirectsLast(found, live, dom, e, self, queue);
      if delegateCount < |handlers| {
        queue := queue + [Batch(self, handlers[delegateCount..])];
      }
    }
  }

  /** Any series of operations leaves the list split into delegates and direct handlers, each
      in the order of registration. */
  method Replay(ops: seq<Op>) returns (list: HandlerList)
    ensures fresh(list) && list.Valid() && list.live == Live(ops)
    ensures list.handlers == Delegates(Live(ops)) + Directs(Live(ops)) && list.delegateCount == |Delegates(Live(ops))|
  {
    list := new HandlerList();
    for i := 0 to |ops|
      invariant fresh(list) && list.Valid() && list.live == Live(ops[..i])
    {
      assert ops[..i + 1][..i] == ops[..i];
      match ops[i] {
        case Bind(h) => list.Add(h);
        case Unbind(r) => list.Remove(r);
      }
    }
    assert ops[..|ops|] == ops;
  }

  /** One step up, from a node that is not `self`: what is passed, and that `self` is not passed. */
  lemma StepUp(dom: Document, self: nat, target: nat, cur: nat)
    requires dom.Valid() && self < |dom.parent| && target < |dom.parent| && cur < |dom.parent|
    requires AtOrAbove(dom, cur, target) && cur != self
    ensures dom.parent[cur] >= 0 ==> AtOrAbove(dom, dom.parent[cur], target)
    ensures forall n: nat :: AtOrAbove(dom, n, cur) <==> n == cur || (dom.parent[cur] >= 0 && AtOrAbove(dom, n, dom.parent[cur]))
    ensures dom.parent[cur] >= 0 ==> !AtOrAbove(dom, cur, dom.parent[cur])
    ensures forall n: nat :: n < |dom.parent| && dom.parent[cur] >= 0 && dom.Ancestor(cur, n) ==> dom.Ancestor(dom.parent[cur], n)
    ensures AtOrAbove(dom, self, cur) ==> !AtOrAbove(dom, cur, self)
  {
    var p := dom.parent[cur];
    if dom.Ancestor(self, cur) {
      AncestorIsSmaller(dom, self, cur);
      if dom.Ancestor(cur, self) {
        AncestorIsSmaller(dom, cur, self);
      }
    }
    if p >= 0 {
      if dom.Ancestor(cur, target) {
        AncestorsAncestor(dom, p, cur, target);
      }
      if dom.Ancestor(cur, p) {
        AncestorIsSmaller(dom, cur, p);
      }
      forall n: nat | n < |dom.parent| && dom.Ancestor(cur, n)
        ensures dom.Ancestor(p, n)
      {
        AncestorsAncestor(dom, p, cur, n);
      }
    }
  }

  ghost predicate Queued(queue: seq<Batch>, n: nat) {
    exists i :: 0 <= i < |queue| && queue[i].elem == n
  }

  /** What the climb has done when it is at `cur`: nodes at or above `cur` are still to come, unless
      the way ended above the root and `cur` is `self`. */
  ghost predicate SoFar(found: Finder, delegates: seq<HandleObj>, dom: Document, e: Event, self: nat, cur: nat, queue: seq<Batch>)
    requires dom.Valid() && self < |dom.parent| && e.target < |dom.parent|
  {
    && cur < |dom.parent|
    && (AtOrAbove(dom, cur, e.target) || cur == self)
    && (AtOrAbove(dom, self, e.target) ==> AtOrAbove(dom, self, cur))
    && (forall i :: 0 <= i < |queue| ==> Fires(found, delegates, dom, e, self, queue[i].elem))
    && (forall i :: 0 <= i < |queue| ==> queue[i].handlers == Triggered(found, delegates, queue[i].elem))
    && (forall i :: 0 < i < |queue| ==> dom.Ancestor(queue[i].elem, queue[i - 1].elem))
    && (AtOrAbove(dom, cur, e.target) ==> forall i :: 0 <= i < |queue| ==> dom.Ancestor(cur, queue[i].elem))
    && (forall n: nat :: Fires(found, delegates, dom, e, self, n) && !Queued(queue, n) ==>
          AtOrAbove(dom, cur, e.target) && AtOrAbove(dom, n, cur))
  }

  lemma MoreQueued(queue: seq<Batch>, b: Batch, n: nat)
    ensures Queued(queue + [b], n) <==> Queued(queue, n) || n == b.elem
  {
    assert (queue + [b])[|queue|] == b;
    if Queued(queue, n) {
      var i :| 0 <= i < |queue| && queue[i].elem == n;
      assert (queue + [b])[i].elem == n;
    }
  }

  /** The node the climb is at gets its batch, if it fires. */
  lemma SoFarAt(found: Finder, delegates: seq<HandleObj>, dom: Document, e: Event, self: nat, cur: nat, queue: seq<Batch>)
    returns (next: seq<Batch>)
    requires dom.Valid() && self < |dom.parent| && e.target < |dom.parent| && cur != self
    requires SoFar(found, delegates, dom, e, self, cur, queue)
    ensures var t := Triggered(found, delegates, cur);
            next == if Eligible(dom, e, cur) && t != [] then queue + [Batch(cur, t)] else queue
    ensures SoFar(found, delegates, dom, e, self, if dom.parent[cur] >= 0 then dom.parent[cur] else self, next)
  {
    StepUp(dom, self, e.target, cur);
    var t := Triggered(found, delegates, cur);
    next := queue;
    if Eligible(dom, e, cur) && t != [] {
      next := queue + [Batch(cur, t)];
      assert Fires(found, delegates, dom, e, self, cur);
      forall n: nat
        ensures Queued(next, n) <==> Queued(queue, n) || n == cur
      {
        MoreQueued(queue, Batch(cur, t), n);
      }
    }
    assert forall n: nat :: Fires(found, delegates, dom, e, self, n) && !Queued(next, n) ==> n != cur && AtOrAbove(dom, n, cur);
  }

  /** From the target up through the parents, until `self` is reached or there is no parent. */
  method Climb(found: Finder, delegates: seq<HandleObj>, dom: Document, e: Event, self: nat) returns (queue: seq<Batch>)
    requires forall i :: 0 <= i < |delegates| ==> delegates[i].selector.Some?
    requires dom.Valid() && self < |dom.parent| && e.target < |dom.parent|
    ensures Climbed(found, delegates, dom, e, self, queue)
  {
    queue := [];
    var cur: nat := e.target;
    while cur != self
      invariant SoFar(found, delegates, dom, e, self, cur, queue)
      decreases if cur == self then 0 else cur + 1
    {
      ghost var next := SoFarAt(found, delegates, dom, e, self, cur, queue);
      if Eligible(dom, e, cur) {
        var t := MatchDelegates(found, delegates, cur);
        if t != [] {
          queue := queue + [Batch(cur, t)];
        }
      }
      cur := if dom.parent[cur] >= 0 then dom.parent[cur] else self;
    }
  }

  /** The delegates an element triggers; each selector is looked up once. */
  method MatchDelegates(found: Finder, delegates: seq<HandleObj>, elem: nat) returns (matches: seq<HandleObj>)
    requires forall i :: 0 <= i < |delegates| ==> delegates[i].selector.Some?
    ensures matches == Triggered(found, delegates, elem)
  {
    matches := [];
    var cache: map<string, bool> := map[];
    for i := 0 to |delegates|
      invariant matches == Triggered(found, delegates[..i], elem)
      invariant forall s :: s in cache ==> cache[s] == found(s, elem)
    {
      assert delegates[..i + 1][..i] == delegates[..i];
      var sel := delegates[i].selector.value;
      if sel !in cache {
        cache := cache[sel := found(sel, elem)];
      }
      if cache[sel] {
        matches := matches + [delegates[i]];
      }
    }
    assert delegates[..|delegates|] == delegates;
  }
}
