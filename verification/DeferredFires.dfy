/** The fires of a Deferred are those of its callback lists: advanced call by call until it is
    over, a fire ends where the list itself ends when it drains. */
module DeferredFires {
  import opened Wrappers
  import opened Callbacks
  import opened CallbackRuns
  import opened Deferreds

  /** Calls made on list `i`. */
  predicate OnList(i: nat, es: seq<Event>) {
    forall k :: 0 <= k < |es| ==> !es[k].Return? && es[k].which == i
  }

  function OpOf(e: Event): Op
    requires !e.Return?
  {
    if e.Listen? then Add(User(e.fns)) else FireWith(e.data)
  }

  function Ops(i: nat, es: seq<Event>): seq<Op>
    requires OnList(i, es)
  {
    seq(|es|, k requires 0 <= k < |es| => OpOf(es[k]))
  }

  /** `acts` are the calls that successive callbacks make before they return. */
  predicate AllOnList(i: nat, acts: seq<seq<Event>>) {
    forall k :: 0 <= k < |acts| ==> OnList(i, acts[k])
  }

  /** The same callbacks as behaviours of the list. */
  function Script(i: nat, acts: seq<seq<Event>>): seq<Behaviour>
    requires AllOnList(i, acts)
  {
    seq(|acts|, k requires 0 <= k < |acts| => Behaviour(Ops(i, acts[k]), false))
  }

  function Perform(d: Deferred, es: seq<Event>): (r: Deferred)
    requires d.Shape()
    ensures r.Shape()
  {
    if es == [] then d else Step(Perform(d, es[..|es| - 1]), es[|es| - 1])
  }

  /** Calls to a list that is being fired do no more than change that list. */
  lemma {:induction false} PerformIsNested(d: Deferred, i: nat, es: seq<Event>)
    requires d.Shape() && i < 3 && d.lists[i].firing && OnList(i, es)
    ensures Perform(d, es) == d.Put(i, NestedAll(d.lists[i], Ops(i, es)))
  {
    if es == [] {
      assert d.lists[i := d.lists[i]] == d.lists;
    } else {
      var n := |es| - 1;
      PerformIsNested(d, i, es[..n]);
      assert Ops(i, es)[..n] == Ops(i, es[..n]);
      var s := NestedAll(d.lists[i], Ops(i, es[..n]));
      assert d.lists[i := s][i := Nested(s, OpOf(es[n]))] == d.lists[i := Nested(s, OpOf(es[n]))];
    }
  }

  /** A fire of list `i` is the innermost one. */
  ghost predicate Under(d: Deferred, i: nat) {
    d.Shape() && d.frames != [] && d.Top() == i
  }

  function Left(d: Deferred, i: nat): (nat, nat)
    requires |d.lists| == 3 && i < 3
  {
    (QueueLength(d.lists[i]), |d.lists[i].todo|)
  }

  predicate Less(a: (nat, nat), b: (nat, nat)) {
    a.0 < b.0 || (a.0 == b.0 && a.1 < b.1)
  }

  lemma {:induction false} AdvanceShrinks(d: Deferred, i: nat)
    requires Under(d, i)
    ensures var a := Advance(d);
      a.frames == d.frames[..|d.frames| - 1] || (Under(a, i) && a.frames == d.frames && Less(Left(a, i), Left(d, i)))
    decreases QueueLength(d.lists[i]), |d.lists[i].todo|
  {
    var s := d.lists[i];
    if s.entries.Some? && s.todo != [] {
      if i < 2 && s.todo[0].fn < FIRST_USER {
        AdvanceShrinks(Internal(d.Put(i, Called(s)), i, s.todo[0].fn), i);
      }
    } else if s.entries.Some? && s.queue.Some? && s.queue.value != [] {
      AdvanceShrinks(d.Put(i, NextFire(s)), i);
    }
  }

  function Rest(acts: seq<seq<Event>>): seq<seq<Event>> {
    if acts == [] then [] else acts[1..]
  }

  /** To the next user callback, with what it does, or to the end of the fire. */
  ghost function Round(d: Deferred, i: nat, acts: seq<seq<Event>>): (r: Deferred)
    requires Under(d, i) && AllOnList(i, acts)
    ensures r.Shape() && (r.frames == d.frames[..|d.frames| - 1] || (Under(r, i) && r.frames == d.frames))
    ensures acts == [] && r.frames == d.frames ==> Less(Left(r, i), Left(d, i))
  {
    AdvanceShrinks(d, i);
    var a := Advance(d);
    if acts == [] || a.frames != d.frames then a
    else
      PerformIsNested(a, i, acts[0]);
      Perform(a, acts[0])
  }

  /** Advances the innermost fire until its frame is gone, callback by callback. */
  ghost function Session(d: Deferred, i: nat, acts: seq<seq<Event>>): (r: Deferred)
    requires Under(d, i) && AllOnList(i, acts)
    ensures r.Shape() && r.frames == d.frames[..|d.frames| - 1]
    decreases |acts|, Left(d, i).0, Left(d, i).1
  {
    var r := Round(d, i, acts);
    if r.frames == d.frames then Session(r, i, Rest(acts)) else r
  }

  // The script plays no part in what calls do to a list.

  lemma {:induction false} AddAllScript(s: State, fns: seq<Fn>, script: seq<Behaviour>)
    requires s.entries.Some?
    ensures AddAll(s.(script := script), fns) == AddAll(s, fns).(script := script)
  {
    if fns != [] {
      AddAllScript(s, fns[..|fns| - 1], script);
    }
  }

  lemma {:induction false} NestedAllScript(s: State, i: nat, es: seq<Event>, script: seq<Behaviour>)
    requires s.firing && OnList(i, es)
    ensures NestedAll(s.(script := script), Ops(i, es)) == NestedAll(s, Ops(i, es)).(script := script)
  {
    if es != [] {
      var n := |es| - 1;
      assert Ops(i, es)[..n] == Ops(i, es[..n]);
      NestedAllScript(s, i, es[..n], script);
      var t := NestedAll(s, Ops(i, es[..n]));
      if es[n].Listen? && t.entries.Some? {
        AddAllScript(t, User(es[n].fns), script);
      }
    }
  }

  /** Past the Deferred's own callbacks: what is left to call are user callbacks. */
  ghost predicate Users(i: nat, s: State) {
    && !s.options.stopOnFalse
    && (i == 2 || (s.queue.None? && forall e :: e in s.todo ==> e.fn >= FIRST_USER))
  }

  lemma {:induction false} AddAllUsers(s: State, fns: seq<nat>)
    requires s.entries.Some? && forall e :: e in s.todo ==> e.fn >= FIRST_USER
    ensures forall e :: e in AddAll(s, User(fns)).todo ==> e.fn >= FIRST_USER
    ensures AddAll(s, User(fns)).options == s.options
  {
    if fns != [] {
      var n := |fns| - 1;
      assert User(fns)[..n] == User(fns[..n]);
      AddAllUsers(s, fns[..n]);
    }
  }

  lemma {:induction false} AddAllOptions(s: State, fns: seq<Fn>)
    requires s.entries.Some?
    ensures AddAll(s, fns).options == s.options
  {
    if fns != [] {
      AddAllOptions(s, fns[..|fns| - 1]);
    }
  }

  lemma {:induction false} NestedAllUsers(i: nat, s: State, es: seq<Event>)
    requires s.firing && OnList(i, es) && Users(i, s)
    ensures Users(i, NestedAll(s, Ops(i, es)))
  {
    if es != [] {
      var n := |es| - 1;
      assert Ops(i, es)[..n] == Ops(i, es[..n]);
      NestedAllUsers(i, s, es[..n]);
      var t := NestedAll(s, Ops(i, es[..n]));
      if es[n].Listen? && t.entries.Some? {
        AddAllOptions(t, User(es[n].fns));
        if i != 2 {
          AddAllUsers(t, es[n].fns);
        }
      }
    }
  }

  /** The state of the Deferred after a fire of list `i` that ended in `s`. */
  ghost predicate FiredTo(d: Deferred, i: nat, s: State, r: Deferred)
    requires |d.lists| == |r.lists| == 3 && i < 3
  {
    && d.frames != [] && r.frames == d.frames[..|d.frames| - 1] && r.status == d.status
    && (forall j :: 0 <= j < 3 && j != i ==> r.lists[j] == d.lists[j])
    && r.lists[i].(script := []) == s.(script := [])
  }

  lemma AdvanceUser(d: Deferred, i: nat)
    requires Under(d, i) && Users(i, d.lists[i]) && d.lists[i].entries.Some? && d.lists[i].todo != []
    ensures Advance(d) == d.Put(i, Called(d.lists[i])) && Users(i, Called(d.lists[i]))
  {
  }

  /** Only list `i` differs, and the same fire is under way. */
  ghost predicate Same(d: Deferred, i: nat, e: Deferred)
    requires |d.lists| == |e.lists| == 3
  {
    e.frames == d.frames && e.status == d.status && forall j :: 0 <= j < 3 && j != i ==> e.lists[j] == d.lists[j]
  }

  /** One call, with all that the callback does. */
  lemma CallStep(d: Deferred, i: nat, acts: seq<seq<Event>>) returns (e: Deferred)
    requires Under(d, i) && AllOnList(i, acts) && Users(i, d.lists[i])
    requires d.lists[i].entries.Some? && d.lists[i].todo != []
    ensures e == Round(d, i, acts) && Same(d, i, e) && Users(i, e.lists[i])
    ensures CallFirst(d.lists[i].(script := Script(i, acts))) == e.lists[i].(script := Script(i, Rest(acts)))
  {
    var s := d.lists[i];
    AdvanceUser(d, i);
    e := Round(d, i, acts);
    CallFirstScript(s, i, acts);
    if acts != [] {
      PerformIsNested(d.Put(i, Called(s)), i, acts[0]);
      NestedAllUsers(i, Called(s), acts[0]);
    }
  }

  lemma CallFirstScript(s: State, i: nat, acts: seq<seq<Event>>)
    requires s.firing && s.entries.Some? && s.todo != [] && AllOnList(i, acts) && !s.options.stopOnFalse
    ensures CallFirst(s.(script := Script(i, acts))) ==
      (if acts == [] then Called(s) else NestedAll(Called(s), Ops(i, acts[0]))).(script := Script(i, Rest(acts)))
  {
    if acts != [] {
      NestedAllScript(Called(s), i, acts[0], Script(i, Rest(acts)));
      assert Script(i, acts)[1..] == Script(i, Rest(acts));
    }
  }

  /** A fire that waited takes over. */
  lemma FireStep(d: Deferred, i: nat, acts: seq<seq<Event>>) returns (e: Deferred)
    requires Under(d, i) && AllOnList(i, acts) && Users(i, d.lists[i])
    requires var s := d.lists[i]; s.entries.Some? && s.todo == [] && s.queue.Some? && s.queue.value != []
    ensures Under(e, i) && Same(d, i, e) && Users(i, e.lists[i]) && e.lists[i] == NextFire(d.lists[i])
    ensures Session(d, i, acts) == Session(e, i, acts)
  {
    e := d.Put(i, NextFire(d.lists[i]));
    SessionFrom(d, e, i, acts);
  }

  lemma SessionFrom(d: Deferred, e: Deferred, i: nat, acts: seq<seq<Event>>)
    requires Under(d, i) && Under(e, i) && d.frames == e.frames && AllOnList(i, acts)
    requires Advance(d) == Advance(e)
    ensures Session(d, i, acts) == Session(e, i, acts)
  {
  }

  /** The fire is over. */
  lemma EndStep(d: Deferred, i: nat, acts: seq<seq<Event>>)
    requires Under(d, i) && AllOnList(i, acts)
    requires var s := d.lists[i]; s.entries.None? || (s.todo == [] && (s.queue.None? || s.queue.value == []))
    ensures FiredTo(d, i, AtRest(d.lists[i]), Session(d, i, acts))
  {
  }

  lemma FiredAlong(d: Deferred, i: nat, e: Deferred, s: State, r: Deferred)
    requires |d.lists| == |e.lists| == |r.lists| == 3 && i < 3 && Same(d, i, e) && FiredTo(e, i, s, r)
    ensures FiredTo(d, i, s, r)
  {
  }

  lemma AtRestScript(s: State, script: seq<Behaviour>)
    ensures AtRest(s.(script := script)).(script := []) == AtRest(s).(script := [])
  {
  }

  lemma DrainSteps(s: State)
    requires s.firing
    ensures Drain(s) ==
      if s.entries.Some? && s.todo != [] then Drain(CallFirst(s))
      else if s.entries.Some? && s.queue.Some? && s.queue.value != [] then Drain(NextFire(s))
      else AtRest(s)
  {
  }

  /** Calls on one list, advanced until its frame is gone, end in `Drain`. */
  lemma {:induction false} SessionIsDrain(d: Deferred, i: nat, acts: seq<seq<Event>>)
    requires Under(d, i) && AllOnList(i, acts) && Users(i, d.lists[i])
    ensures FiredTo(d, i, Drain(d.lists[i].(script := Script(i, acts))), Session(d, i, acts))
    decreases |acts|, Left(d, i).0, Left(d, i).1
  {
    var s := d.lists[i];
    var x := s.(script := Script(i, acts));
    DrainSteps(x);
    if s.entries.Some? && s.todo != [] {
      var e := CallStep(d, i, acts);
      SessionIsDrain(e, i, Rest(acts));
      FiredAlong(d, i, e, Drain(x), Session(e, i, Rest(acts)));
    } else if s.entries.Some? && s.queue.Some? && s.queue.value != [] {
      var e := FireStep(d, i, acts);
      SessionIsDrain(e, i, acts);
      FiredAlong(d, i, e, Drain(x), Session(e, i, acts));
    } else {
      EndStep(d, i, acts);
      AtRestScript(s, Script(i, acts));
    }
  }

  const IDLE := Behaviour([], false)

  /** The callbacks do nothing `n` times, and then what `script` says. */
  function Idle(n: nat, script: seq<Behaviour>): seq<Behaviour> {
    if n == 0 then script else [IDLE] + Idle(n - 1, script)
  }

  lemma IdleCall(s: State, script: seq<Behaviour>)
    requires s.firing && s.entries.Some? && s.todo != []
    ensures Drain(s.(script := [IDLE] + script)) == Drain(Called(s).(script := script))
  {
    var x := s.(script := [IDLE] + script);
    DrainSteps(x);
    assert x.script[1..] == script;
  }

  ghost predicate SameDrain(s: State, script: seq<Behaviour>, r: State, rest: seq<Behaviour>) {
    s.firing && r.firing && Drain(s.(script := script)) == Drain(r.(script := rest))
  }

  /** The next `n` entries have been called and have done nothing to the list. */
  function CalledTimes(n: nat, s: State): (r: State)
    requires n <= |s.todo|
    ensures r.firing == s.firing
  {
    if n == 0 then s else CalledTimes(n - 1, Called(s))
  }

  /** The Deferred's own callbacks do nothing to the list that calls them. */
  lemma {:induction false} IdleCalls(n: nat, s: State, script: seq<Behaviour>)
    requires s.firing && s.entries.Some? && n <= |s.todo|
    ensures SameDrain(s, Idle(n, script), CalledTimes(n, s), script)
    decreases n
  {
    if n > 0 {
      IdleCall(s, Idle(n - 1, script));
      IdleCalls(n - 1, Called(s), script);
    }
  }

  lemma {:induction false} OwnCalls(d: Deferred, i: nat, fns: seq<Fn>, data: Data, k: nat) returns (e: Deferred)
    requires Under(d, i) && i < 2 && k <= 3 && Going(d.lists[i], fns, data, k)
    ensures Continues(d, e) && Going(e.lists[i], fns, data, 3)
    ensures e.status == if k == 0 then FinalStatus(i) else d.status
    ensures 3 - k <= |d.lists[i].todo| && e.lists[i] == CalledTimes(3 - k, d.lists[i])
    decreases 3 - k
  {
    e := d;
    if k < 3 {
      var d1 := OwnEffect(d, i, fns, data, k);
      e := OwnCalls(d1, i, fns, data, k + 1);
      ContinuesOn(d, d1, e);
    }
  }

  lemma ContinuesOn(d: Deferred, e: Deferred, f: Deferred)
    requires Continues(d, e) && Continues(e, f)
    ensures Continues(d, f)
  {
  }

  lemma UsersAfterOwn(s: State, i: nat, fns: seq<Fn>, data: Data)
    requires Going(s, fns, data, 3)
    ensures Users(i, s)
  {
  }

  lemma EndsAlike(d: Deferred, e: Deferred, i: nat, acts: seq<seq<Event>>)
    requires AllOnList(i, acts) && Under(d, i) && Continues(d, e) && Users(i, e.lists[i])
    ensures var r := Session(d, i, acts);
      && r.status == e.status
      && r.lists[i].(script := []) == Drain(e.lists[i].(script := Script(i, acts))).(script := [])
  {
    SessionFrom(d, e, i, acts);
    SessionIsDrain(e, i, acts);
  }

  lemma OwnSession(d: Deferred, i: nat, fns: seq<Fn>, data: Data, k: nat, acts: seq<seq<Event>>)
    requires Under(d, i) && i < 2 && k <= 3 && Going(d.lists[i], fns, data, k) && AllOnList(i, acts)
    ensures 3 - k <= |d.lists[i].todo|
    ensures var r := Session(d, i, acts);
      && r.status == (if k == 0 then FinalStatus(i) else d.status)
      && r.lists[i].(script := []) == Drain(CalledTimes(3 - k, d.lists[i]).(script := Script(i, acts))).(script := [])
  {
    var e := OwnCalls(d, i, fns, data, k);
    UsersAfterOwn(e.lists[i], i, fns, data);
    EndsAlike(d, e, i, acts);
  }

  /** The first fire: before any user callback come the Deferred's own ones, which leave the list alone. */
  lemma OpeningIsDrain(d: Deferred, i: nat, fns: seq<Fn>, data: Data, acts: seq<seq<Event>>)
    requires Under(d, i) && i < 2 && Going(d.lists[i], fns, data, 0) && AllOnList(i, acts)
    ensures var r := Session(d, i, acts);
      && r.status == FinalStatus(i)
      && r.lists[i].(script := []) == Drain(d.lists[i].(script := Idle(3, Script(i, acts)))).(script := [])
  {
    OwnSession(d, i, fns, data, 0, acts);
    IdleCalls(3, d.lists[i], Script(i, acts));
  }
}
