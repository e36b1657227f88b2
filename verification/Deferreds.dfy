/** jQuery.Deferred: three callback lists wired so that resolving one disables its rival. */
module Deferreds {
  import opened Wrappers
  import opened Callbacks
  import opened CallbackRuns

  datatype Status = Pending | Resolved | Rejected

  /** The lists are those of "done", "fail" and "progress", in that order. `frames` says which
      of them are being fired, the innermost fire last; control is then inside one of its callbacks. */
  datatype Deferred = Deferred(lists: seq<State>, status: Status, frames: seq<nat>) {
    ghost predicate Shape() {
      && |lists| == 3
      && (forall i :: 0 <= i < 3 ==> (lists[i].firing <==> i in frames))
      && (forall k :: 0 <= k < |frames| ==> frames[k] < 3)
      && (forall j, k :: 0 <= j < k < |frames| ==> frames[j] != frames[k])
    }

    /** The list whose fire is innermost. */
    function Top(): (i: nat)
      requires Shape() && frames != []
      ensures i < 3 && i in frames && lists[i].firing
    {
      frames[|frames| - 1]
    }

    function Put(i: nat, s: State): (r: Deferred)
      requires |lists| == 3 && i < 3
      ensures Shape() && lists[i].firing == s.firing ==> r.Shape()
    {
      this.(lists := lists[i := s])
    }

    function Push(i: nat, s: State): (r: Deferred)
      requires Shape() && i < 3 && !lists[i].firing && s.firing
      ensures r.Shape() && r.frames != [] && r.Top() == i
    {
      this.(lists := lists[i := s], frames := frames + [i])
    }

    function Pop(s: State): (r: Deferred)
      requires Shape() && frames != [] && !s.firing
      ensures r.Shape()
    {
      var popped := frames[..|frames| - 1];
      assert forall i :: i in frames <==> i in popped || i == Top();
      this.(lists := lists[Top() := s], frames := popped)
    }
  }

  /** What code can do at any moment: listen, fire one of the lists (resolve, reject, notify),
      or, when it is a callback, return. */
  datatype Event = Listen(which: nat, fns: seq<nat>) | Fire(which: nat, data: Data) | Return

  // The three callbacks that a Deferred registers on its own done and fail lists.
  const SET_STATE: Fn := 0
  const DISABLE_RIVAL: Fn := 1
  const LOCK_PROGRESS: Fn := 2

  /** User callbacks are numbered from here. */
  const FIRST_USER: Fn := 3

  function User(fns: seq<nat>): seq<Fn> {
    seq(|fns|, i requires 0 <= i < |fns| => fns[i] + FIRST_USER)
  }

  function FinalStatus(i: nat): Status {
    if i == 0 then Resolved else Rejected
  }

  function Create(): Deferred {
    var once := Initial(Options(true, true, false, false), []);
    var internal := AddAll(once, [SET_STATE, DISABLE_RIVAL, LOCK_PROGRESS]).(todo := []);
    Deferred([internal, internal, Initial(Options(false, true, false, false), [])], Pending, [])
  }

  /** One of the Deferred's own callbacks, run by list `i`. */
  function Internal(d: Deferred, i: nat, fn: Fn): (r: Deferred)
    requires d.Shape() && i < 2
    ensures r.Shape() && r.frames == d.frames && r.lists[i] == d.lists[i]
  {
    if fn == SET_STATE then d.(status := FinalStatus(i))
    else if fn == DISABLE_RIVAL then d.Put(1 - i, Disabled(d.lists[1 - i]))
    else d.Put(2, Locked(d.lists[2]))
  }

  /** Lets the innermost fire run until a user callback has control or the fire is over. */
  function Advance(d: Deferred): (r: Deferred)
    requires d.Shape() && d.frames != []
    ensures r.Shape()
    decreases QueueLength(d.lists[d.Top()]), |d.lists[d.Top()].todo|
  {
    var i := d.Top();
    var s := d.lists[i];
    if s.entries.Some? && s.todo != [] then
      var called := d.Put(i, Called(s));
      var fn := s.todo[0].fn;
      if i < 2 && fn < FIRST_USER then Advance(Internal(called, i, fn)) else called
    else if s.entries.Some? && s.queue.Some? && s.queue.value != [] then
      Advance(d.Put(i, NextFire(s)))
    else
      d.Pop(AtRest(s))
  }

  function Step(d: Deferred, e: Event): (r: Deferred)
    requires d.Shape()
    ensures r.Shape()
  {
    match e
    case Return => if d.frames == [] then d else Advance(d)
    case Listen(i, fns) =>
      if i >= 3 then d else
      var s := d.lists[i];
      if s.firing then
        d.Put(i, Nested(s, Add(User(fns))))
      else if s.entries.None? then d else
        var r := AddAll(s.(todo := []), User(fns));
        if r.memory.Some? then Advance(d.Push(i, Begin(r, r.todo, r.memory.value)))
        else d.Put(i, r.(todo := []))
    case Fire(i, data) =>
      if i >= 3 then d else
      var s := d.lists[i];
      if s.firing then
        d.Put(i, Nested(s, FireWith(data)))
      else if s.entries.Some? && (!s.fired || s.queue.Some?) then
        Advance(d.Push(i, Begin(s.(asked := s.asked + [data], started := s.started + [data]), s.entries.value, data)))
      else d
  }

  /** A whole run: any interleaving of what outside code and the callbacks do. */
  function Run(events: seq<Event>): (d: Deferred)
    ensures d.Shape()
  {
    if events == [] then Create() else Step(Run(events[..|events| - 1]), events[|events| - 1])
  }

  // The specification: read off the events, without any list.

  /** What has been registered on a list, the Deferred's own callbacks first. */
  function Heard(i: nat, events: seq<Event>): seq<Fn> {
    if events == [] then (if i < 2 then [SET_STATE, DISABLE_RIVAL, LOCK_PROGRESS] else []) else
      var e := events[|events| - 1];
      Heard(i, events[..|events| - 1]) + (if e.Listen? && e.which == i then User(e.fns) else [])
  }

  /** The first attempt to resolve or reject, which is the one that counts. */
  function Outcome(events: seq<Event>): Option<(nat, Data)> {
    if events == [] then None else
      var o := Outcome(events[..|events| - 1]);
      var e := events[|events| - 1];
      if o.None? && e.Fire? && e.which < 2 then Some((e.which, e.data)) else o
  }

  function Numbered(fns: seq<Fn>, from: nat): seq<Entry> {
    seq(|fns|, i requires 0 <= i < |fns| => Entry(fns[i], from + i))
  }

  function Number(fns: seq<Fn>): seq<Entry> {
    Numbered(fns, 0)
  }

  /** Every callback of `fns` called once, in order, with the same arguments. */
  function CallsTo(fns: seq<Fn>, data: Data): seq<Call> {
    seq(|fns|, i requires 0 <= i < |fns| => Call(Entry(fns[i], i), data))
  }

  // The states a done or fail list can be in, given what was registered on it.

  ghost predicate OnceList(s: State, fns: seq<Fn>) {
    && s.options == Options(true, true, false, false) && s.queue.None?
    && |fns| >= 3 && fns[..3] == [SET_STATE, DISABLE_RIVAL, LOCK_PROGRESS]
    && (forall k :: 3 <= k < |fns| ==> fns[k] >= FIRST_USER)
  }

  ghost predicate Fresh(s: State, fns: seq<Fn>) {
    && OnceList(s, fns) && !s.fired && !s.firing && s.memory.None?
    && s.entries == Some(Number(fns)) && s.todo == [] && s.calls == [] && s.next == |fns|
  }

  ghost predicate Dead(s: State) {
    s.entries.None? && s.queue.None? && !s.firing && s.calls == []
  }

  ghost predicate Going(s: State, fns: seq<Fn>, d: Data, k: nat) {
    && OnceList(s, fns) && s.fired && s.firing && s.entries.Some? && s.memory == Some(d) && s.data == d
    && k <= |fns| && s.todo == Number(fns)[k..] && s.calls == CallsTo(fns, d)[..k] && s.next == |fns|
  }

  ghost predicate Spent(s: State, fns: seq<Fn>, d: Data) {
    && OnceList(s, fns) && s.fired && !s.firing && s.memory == Some(d)
    && s.entries == Some([]) && s.todo == [] && s.calls == CallsTo(fns, d) && s.next == |fns|
  }

  /** The list of the outcome: every call so far is right, and none is missing once it rests. */
  ghost predicate Delivering(s: State, fns: seq<Fn>, d: Data) {
    Spent(s, fns, d) || exists k :: 3 <= k && Going(s, fns, d, k)
  }

  ghost predicate ProgressOk(s: State) {
    s.memory.Some? ==> s.fired
  }

  ghost predicate Locked2(s: State) {
    s.queue.None? && (s.entries.None? || s.fired)
  }

  ghost predicate Inv(d: Deferred, heard0: seq<Fn>, heard1: seq<Fn>, o: Option<(nat, Data)>) {
    && d.Shape() && ProgressOk(d.lists[2])
    && match o
       case None => d.status == Pending && Fresh(d.lists[0], heard0) && Fresh(d.lists[1], heard1)
       case Some(p) =>
         && p.0 < 2 && d.status == FinalStatus(p.0)
         && Delivering(d.lists[p.0], if p.0 == 0 then heard0 else heard1, p.1)
         && Dead(d.lists[1 - p.0]) && Locked2(d.lists[2])
  }

  // Steps on one list.

  lemma {:induction false} AddAllIsAppend(s: State, fns: seq<Fn>)
    requires s.entries.Some? && !s.options.unique
    ensures AddAll(s, fns) == s.(entries := Some(s.entries.value + Numbered(fns, s.next)), todo := s.todo + Numbered(fns, s.next), next := s.next + |fns|)
  {
    if fns == [] {
      assert s.entries.value + Numbered([], s.next) == s.entries.value && s.todo + Numbered([], s.next) == s.todo;
    } else {
      var k := |fns| - 1;
      var init, last := Numbered(fns[..k], s.next), [Entry(fns[k], s.next + k)];
      AddAllIsAppend(s, fns[..k]);
      assert Numbered(fns, s.next) == init + last;
      assert s.entries.value + (init + last) == s.entries.value + init + last;
      assert s.todo + (init + last) == s.todo + init + last;
    }
  }

  lemma NumberAppend(fns: seq<Fn>, more: seq<Fn>)
    ensures Number(fns + more) == Number(fns) + Numbered(more, |fns|)
  {
  }

  /** Listening on a list that is being fired extends the fire. */
  lemma ListenGoing(s: State, fns: seq<Fn>, d: Data, k: nat, more: seq<nat>)
    requires Going(s, fns, d, k)
    ensures Going(Nested(s, Add(User(more))), fns + User(more), d, k)
  {
    AddAllIsAppend(s, User(more));
    NumberAppend(fns, User(more));
    assert CallsTo(fns + User(more), d)[..k] == CallsTo(fns, d)[..k];
    assert (fns + User(more))[..3] == fns[..3];
  }

  lemma ListenFresh(s: State, fns: seq<Fn>, more: seq<nat>)
    requires Fresh(s, fns)
    ensures AddAll(s.(todo := []), User(more)).memory.None?
    ensures Fresh(AddAll(s.(todo := []), User(more)).(todo := []), fns + User(more))
  {
    AddAllIsAppend(s.(todo := []), User(more));
    NumberAppend(fns, User(more));
    assert (fns + User(more))[..3] == fns[..3];
  }

  /** Listening after the fact fires the late callbacks with the remembered arguments. */
  lemma ListenSpent(s: State, fns: seq<Fn>, d: Data, more: seq<nat>)
    requires Spent(s, fns, d)
    ensures var r := AddAll(s.(todo := []), User(more));
            r.memory == Some(d) && Going(Begin(r, r.todo, d), fns + User(more), d, |fns|)
  {
    AddAllIsAppend(s.(todo := []), User(more));
    NumberAppend(fns, User(more));
    assert CallsTo(fns + User(more), d)[..|fns|] == CallsTo(fns, d);
    assert Number(fns + User(more))[|fns|..] == AddAll(s.(todo := []), User(more)).todo;
    assert (fns + User(more))[..3] == fns[..3];
  }

  lemma CallGoing(s: State, fns: seq<Fn>, d: Data, k: nat)
    requires Going(s, fns, d, k) && k < |fns|
    ensures s.todo != [] && s.todo[0] == Entry(fns[k], k) && Going(Called(s), fns, d, k + 1)
  {
    assert s.todo[1..] == Number(fns)[k + 1..];
    assert CallsTo(fns, d)[..k + 1] == CallsTo(fns, d)[..k] + [Call(Entry(fns[k], k), d)];
  }

  lemma AdvanceCalls(d: Deferred)
    requires d.Shape() && d.frames != [] && d.lists[d.Top()].entries.Some? && d.lists[d.Top()].todo != []
    requires d.lists[d.Top()].todo[0].fn >= FIRST_USER
    ensures Advance(d) == d.Put(d.Top(), Called(d.lists[d.Top()]))
  {
  }

  lemma AdvanceEnds(d: Deferred)
    requires d.Shape() && d.frames != [] && d.lists[d.Top()].todo == [] && d.lists[d.Top()].queue.None?
    ensures Advance(d) == d.Pop(AtRest(d.lists[d.Top()]))
  {
  }

  lemma GoingEnds(s: State, fns: seq<Fn>, d: Data, k: nat)
    requires Going(s, fns, d, k) && k == |fns|
    ensures s.todo == [] && Spent(AtRest(s), fns, d)
  {
    assert CallsTo(fns, d)[..k] == CallsTo(fns, d);
  }

  /** A fire of the settled list, once past the Deferred's own callbacks. */
  lemma AdvanceSettled(d: Deferred, i: nat, fns: seq<Fn>, data: Data, k: nat)
    requires d.Shape() && d.frames != [] && d.Top() == i < 2
    requires 3 <= k && Going(d.lists[i], fns, data, k)
    ensures var r := Advance(d);
            && r.status == d.status && r.lists[1 - i] == d.lists[1 - i] && r.lists[2] == d.lists[2]
            && Delivering(r.lists[i], fns, data)
  {
    if k < |fns| {
      CallGoing(d.lists[i], fns, data, k);
      AdvanceCalls(d);
    } else {
      GoingEnds(d.lists[i], fns, data, k);
      AdvanceEnds(d);
    }
  }

  /** A fire of the progress list touches nothing else. */
  lemma {:induction false} AdvanceProgress(d: Deferred)
    requires d.Shape() && d.frames != [] && d.Top() == 2 && ProgressOk(d.lists[2])
    ensures var r := Advance(d);
            && r.status == d.status && r.lists[0] == d.lists[0] && r.lists[1] == d.lists[1]
            && ProgressOk(r.lists[2]) && (Locked2(d.lists[2]) ==> Locked2(r.lists[2]))
    decreases QueueLength(d.lists[2])
  {
    var s := d.lists[2];
    if s.entries.Some? && s.todo == [] && s.queue.Some? && s.queue.value != [] {
      AdvanceProgress(d.Put(2, NextFire(s)));
    }
  }

  lemma AdvanceCallsOwn(d: Deferred)
    requires d.Shape() && d.frames != [] && d.Top() < 2 && d.lists[d.Top()].entries.Some? && d.lists[d.Top()].todo != []
    requires d.lists[d.Top()].todo[0].fn < FIRST_USER
    ensures var s := d.lists[d.Top()];
            Advance(d) == Advance(Internal(d.Put(d.Top(), Called(s)), d.Top(), s.todo[0].fn))
  {
  }

  /** What list `i` has achieved after `k` of its own callbacks: the state is set, the rival
      disabled and progress locked. */
  ghost predicate SettledBy(d: Deferred, i: nat, k: nat)
    requires |d.lists| == 3 && i < 2
  {
    && ProgressOk(d.lists[2])
    && (k >= 1 ==> d.status == FinalStatus(i))
    && !d.lists[1 - i].firing && d.lists[1 - i].calls == [] && (k >= 2 ==> Dead(d.lists[1 - i]))
    && (k >= 3 ==> Locked2(d.lists[2]))
  }

  lemma OwnSettles(d: Deferred, e: Deferred, i: nat, k: nat)
    requires |d.lists| == |e.lists| == 3 && i < 2 && k < 3 && SettledBy(d, i, k)
    requires e.status == if k == 0 then FinalStatus(i) else d.status
    requires e.lists[1 - i] == if k == 1 then Disabled(d.lists[1 - i]) else d.lists[1 - i]
    requires e.lists[2] == if k == 2 then Locked(d.lists[2]) else d.lists[2]
    ensures SettledBy(e, i, k + 1)
  {
  }

  /** List `i` is innermost and has called `k` of the Deferred's own callbacks. */
  ghost predicate Opening(d: Deferred, i: nat, fns: seq<Fn>, data: Data, k: nat) {
    && d.Shape() && d.frames != [] && d.Top() == i < 2
    && Going(d.lists[i], fns, data, k) && SettledBy(d, i, k)
  }

  ghost predicate Settled(d: Deferred, i: nat, fns: seq<Fn>, data: Data) {
    d.Shape() && i < 2 && SettledBy(d, i, 3) && Delivering(d.lists[i], fns, data)
  }

  /** The running fires of `d` go on as those of `e` do. */
  ghost predicate Continues(d: Deferred, e: Deferred) {
    && d.Shape() && d.frames != [] && e.Shape() && e.frames == d.frames
    && Advance(d) == Advance(e)
  }

  lemma OwnEffect(d: Deferred, i: nat, fns: seq<Fn>, data: Data, k: nat) returns (e: Deferred)
    requires d.Shape() && d.frames != [] && d.Top() == i < 2 && k < 3 && Going(d.lists[i], fns, data, k)
    ensures Continues(d, e)
    ensures d.lists[i].todo != [] && e.lists[i] == Called(d.lists[i]) && Going(e.lists[i], fns, data, k + 1)
    ensures e.status == if k == 0 then FinalStatus(i) else d.status
    ensures e.lists[1 - i] == if k == 1 then Disabled(d.lists[1 - i]) else d.lists[1 - i]
    ensures e.lists[2] == if k == 2 then Locked(d.lists[2]) else d.lists[2]
  {
    var s := d.lists[i];
    CallGoing(s, fns, data, k);
    assert fns[k] == fns[..3][k] == k;
    AdvanceCallsOwn(d);
    e := Internal(d.Put(i, Called(s)), i, k);
  }

  /** The Deferred's own callbacks, one at a time. */
  lemma AdvanceOwn(d: Deferred, i: nat, fns: seq<Fn>, data: Data, k: nat) returns (e: Deferred)
    requires k < 3 && Opening(d, i, fns, data, k)
    ensures Opening(e, i, fns, data, k + 1) && Continues(d, e)
  {
    e := OwnEffect(d, i, fns, data, k);
    OwnSettles(d, e, i, k);
  }

  lemma AdvanceOpened(d: Deferred, i: nat, fns: seq<Fn>, data: Data)
    requires Opening(d, i, fns, data, 3)
    ensures Settled(Advance(d), i, fns, data)
  {
    AdvanceSettled(d, i, fns, data, 3);
  }

  /** The first resolution: its own callbacks come before any user callback. */
  lemma AdvanceFirst(d: Deferred, i: nat, fns: seq<Fn>, data: Data)
    requires Opening(d, i, fns, data, 0)
    ensures Settled(Advance(d), i, fns, data)
  {
    var d1 := AdvanceOwn(d, i, fns, data, 0);
    var d2 := AdvanceOwn(d1, i, fns, data, 1);
    var d3 := AdvanceOwn(d2, i, fns, data, 2);
    AdvanceOpened(d3, i, fns, data);
  }

  /** A fire of the settled list started to serve late listeners. */
  lemma AdvanceLate(d: Deferred, i: nat, fns: seq<Fn>, data: Data, k: nat, s: State)
    requires d.Shape() && i < 2 && !d.lists[i].firing && 3 <= k && Going(s, fns, data, k)
    ensures var r := Advance(d.Push(i, s));
            && r.status == d.status && r.lists[1 - i] == d.lists[1 - i] && r.lists[2] == d.lists[2]
            && Delivering(r.lists[i], fns, data)
  {
    AdvanceSettled(d.Push(i, s), i, fns, data, k);
  }

  // The invariant, event by event.

  lemma ReturnKeepsInv(d: Deferred, h0: seq<Fn>, h1: seq<Fn>, o: Option<(nat, Data)>)
    requires Inv(d, h0, h1, o)
    ensures Inv(Step(d, Return), h0, h1, o)
  {
    if d.frames != [] {
      if d.Top() == 2 {
        AdvanceProgress(d);
      } else {
        var i, fns, data := o.value.0, if o.value.0 == 0 then h0 else h1, o.value.1;
        assert d.Top() == i;
        var k :| 3 <= k && Going(d.lists[i], fns, data, k);
        AdvanceSettled(d, i, fns, data, k);
      }
    }
  }

  lemma ListenProgressKeepsInv(d: Deferred, h0: seq<Fn>, h1: seq<Fn>, o: Option<(nat, Data)>, more: seq<nat>)
    requires Inv(d, h0, h1, o)
    ensures Inv(Step(d, Listen(2, more)), h0, h1, o)
  {
    var s := d.lists[2];
    if s.entries.Some? {
      AddQueued(s, User(more));
      AddQueued(s.(todo := []), User(more));
      var r := AddAll(s.(todo := []), User(more));
      if !s.firing && r.memory.Some? {
        AdvanceProgress(d.Push(2, Begin(r, r.todo, r.memory.value)));
      }
    }
  }

  lemma ListenKeepsInv(d: Deferred, h0: seq<Fn>, h1: seq<Fn>, o: Option<(nat, Data)>, i: nat, more: seq<nat>)
    requires Inv(d, h0, h1, o) && i < 2
    ensures Inv(Step(d, Listen(i, more)), if i == 0 then h0 + User(more) else h0, if i == 1 then h1 + User(more) else h1, o)
  {
    var s, fns := d.lists[i], if i == 0 then h0 else h1;
    if o.None? {
      ListenFresh(s, fns, more);
    } else if i == o.value.0 {
      var data := o.value.1;
      if s.firing {
        var k :| 3 <= k && Going(s, fns, data, k);
        ListenGoing(s, fns, data, k, more);
      } else {
        ListenSpent(s, fns, data, more);
        var r := AddAll(s.(todo := []), User(more));
        AdvanceLate(d, i, fns + User(more), data, |fns|, Begin(r, r.todo, data));
      }
    }
  }

  lemma FreshFires(s: State, fns: seq<Fn>, data: Data)
    requires Fresh(s, fns)
    ensures Going(Begin(s.(asked := s.asked + [data], started := s.started + [data]), s.entries.value, data), fns, data, 0)
  {
    assert Number(fns)[0..] == Number(fns);
    assert CallsTo(fns, data)[..0] == [];
  }

  lemma FireKeepsInv(d: Deferred, h0: seq<Fn>, h1: seq<Fn>, o: Option<(nat, Data)>, i: nat, data: Data)
    requires Inv(d, h0, h1, o) && i < 2
    ensures Inv(Step(d, Fire(i, data)), h0, h1, if o.None? then Some((i, data)) else o)
  {
    if o.None? {
      FirstFire(d, i, if i == 0 then h0 else h1, data);
    } else {
      TooLate(d, if o.value.0 == 0 then h0 else h1, o.value, i, data);
    }
  }

  /** A second resolve or reject has no effect. */
  lemma TooLate(d: Deferred, fns: seq<Fn>, p: (nat, Data), i: nat, data: Data)
    requires d.Shape() && p.0 < 2 && i < 2 && Delivering(d.lists[p.0], fns, p.1) && Dead(d.lists[1 - p.0])
    ensures Step(d, Fire(i, data)) == d
  {
    assert d.lists[i := d.lists[i]] == d.lists;
  }

  lemma FirstFire(d: Deferred, i: nat, fns: seq<Fn>, data: Data)
    requires d.Shape() && i < 2 && Fresh(d.lists[i], fns) && SettledBy(d, i, 0)
    ensures Settled(Step(d, Fire(i, data)), i, fns, data)
  {
    var s := d.lists[i];
    FreshFires(s, fns, data);
    AdvanceFirst(d.Push(i, Begin(s.(asked := s.asked + [data], started := s.started + [data]), s.entries.value, data)), i, fns, data);
  }

  lemma NotifyKeepsInv(d: Deferred, h0: seq<Fn>, h1: seq<Fn>, o: Option<(nat, Data)>, data: Data)
    requires Inv(d, h0, h1, o)
    ensures Inv(Step(d, Fire(2, data)), h0, h1, o)
    ensures o.Some? ==> Step(d, Fire(2, data)) == d
  {
    var s := d.lists[2];
    if !s.firing && s.entries.Some? && (!s.fired || s.queue.Some?) {
      var t := Begin(s.(asked := s.asked + [data], started := s.started + [data]), s.entries.value, data);
      AdvanceProgress(d.Push(2, t));
    }
    if o.Some? {
      assert d.lists[2 := s] == d.lists;
    }
  }

  lemma {:induction false} InvHolds(events: seq<Event>)
    ensures Inv(Run(events), Heard(0, events), Heard(1, events), Outcome(events))
  {
    if events == [] {
      var once := Initial(Options(true, true, false, false), []);
      AddAllIsAppend(once, [SET_STATE, DISABLE_RIVAL, LOCK_PROGRESS]);
      assert [] + Numbered([SET_STATE, DISABLE_RIVAL, LOCK_PROGRESS], 0) == Number([SET_STATE, DISABLE_RIVAL, LOCK_PROGRESS]);
      assert Fresh(Create().lists[0], Heard(0, []));
    } else {
      var before, e := events[..|events| - 1], events[|events| - 1];
      InvHolds(before);
      var d, h0, h1, o := Run(before), Heard(0, before), Heard(1, before), Outcome(before);
      assert Heard(0, events) == if e.Listen? && e.which == 0 then h0 + User(e.fns) else h0;
      assert Heard(1, events) == if e.Listen? && e.which == 1 then h1 + User(e.fns) else h1;
      match e
      case Return => ReturnKeepsInv(d, h0, h1, o);
      case Listen(i, fns) =>
        if i < 2 { ListenKeepsInv(d, h0, h1, o, i, fns); } else if i == 2 { ListenProgressKeepsInv(d, h0, h1, o, fns); }
      case Fire(i, data) =>
        if i < 2 { FireKeepsInv(d, h0, h1, o, i, data); } else if i == 2 { NotifyKeepsInv(d, h0, h1, o, data); }
    }
  }

  // The promises a Deferred makes.

  /** The state is decided by the first resolve or reject; the callbacks of the losing list
      never run; those of the winning one run in registration order with the resolving
      arguments, whether registered before, during or after, and once control has left the
      Deferred none has been missed and none has run twice. */
  lemma PromiseKept(events: seq<Event>, i: nat)
    requires i < 2
    ensures var d, o := Run(events), Outcome(events);
            match o
            case None => d.status == Pending && d.lists[i].calls == []
            case Some(p) =>
              && d.status == (if p.0 == 0 then Resolved else Rejected)
              && (i != p.0 ==> d.lists[i].calls == [])
              && (i == p.0 ==> d.lists[i].calls <= CallsTo(Heard(i, events), p.1))
              && (i == p.0 && d.frames == [] ==> d.lists[i].calls == CallsTo(Heard(i, events), p.1))
  {
    InvHolds(events);
    InvMeans(Run(events), Heard(0, events), Heard(1, events), Outcome(events), i);
  }

  lemma InvMeans(d: Deferred, h0: seq<Fn>, h1: seq<Fn>, o: Option<(nat, Data)>, i: nat)
    requires Inv(d, h0, h1, o) && i < 2
    ensures match o
            case None => d.status == Pending && d.lists[i].calls == []
            case Some(p) =>
              && d.status == FinalStatus(p.0)
              && (i != p.0 ==> d.lists[i].calls == [])
              && (i == p.0 ==> d.lists[i].calls <= CallsTo(if i == 0 then h0 else h1, p.1))
              && (i == p.0 && d.frames == [] ==> d.lists[i].calls == CallsTo(if i == 0 then h0 else h1, p.1))
  {
  }

  /** The state leaves pending at most once. */
  lemma {:induction false} StateIsFinal(events: seq<Event>, more: seq<Event>)
    requires Run(events).status != Pending
    ensures Run(events + more).status == Run(events).status && Outcome(events + more) == Outcome(events)
  {
    if more == [] {
      assert events + more == events;
    } else {
      StateIsFinal(events, more[..|more| - 1]);
      assert (events + more)[..|events + more| - 1] == events + more[..|more| - 1];
    }
    InvHolds(events + more);
    InvHolds(events);
  }

  /** A settled Deferred ignores notify. */
  lemma NotifyIgnored(events: seq<Event>, data: Data)
    requires Run(events).status != Pending
    ensures Step(Run(events), Fire(2, data)) == Run(events)
  {
    InvHolds(events);
    NotifyKeepsInv(Run(events), Heard(0, events), Heard(1, events), Outcome(events), data);
  }
}
