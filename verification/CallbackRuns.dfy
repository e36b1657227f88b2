/** What holds in every run of a callback list, whatever its callbacks do to it. */
module CallbackRuns {
  import opened Wrappers
  import opened Callbacks

  ghost predicate Increasing(es: seq<Entry>) {
    forall i, j :: 0 <= i < j < |es| ==> es[i].id < es[j].id
  }

  /** Registrations are listed in the order they were made, and what is left to call is
      exactly the tail of the list. */
  ghost predicate Orderly(s: State) {
    if s.entries.None? then s.todo == [] else
      var es := s.entries.value;
      && Increasing(es)
      && (forall e :: e in es ==> e.id < s.next)
      && |s.todo| <= |es|
      && s.todo == es[|es| - |s.todo|..]
  }

  ghost predicate Due(s: State, e: Entry) {
    e in s.todo || e.id >= s.next
  }

  /** How a list changes while a callback runs: entries come only from new registrations,
      and a due entry leaves `todo` only by leaving the list. */
  ghost predicate Evolves(s: State, t: State) {
    && Orderly(s) && Orderly(t) && s.next <= t.next
    && t.calls == s.calls && t.data == s.data && t.options == s.options
    && (t.entries.Some? ==> s.entries.Some?)
    && (t.entries.Some? ==> forall e :: e in t.entries.value ==> e in s.entries.value || e.id >= s.next)
    && (forall e :: e in t.todo ==> Due(s, e))
    && (t.entries.Some? ==> forall e :: e in t.entries.value && Due(s, e) ==> e in t.todo)
  }

  lemma EvolvesOn(s: State, t: State, u: State)
    requires Evolves(s, t) && Evolves(t, u)
    ensures Evolves(s, u)
  {
  }

  lemma EvolvesAtRest(s: State)
    requires Orderly(s)
    ensures Evolves(s, s)
  {
  }

  lemma AddOneEvolves(t: State, fn: Fn)
    requires Orderly(t) && t.entries.Some?
    ensures Evolves(t, AddOne(t, fn))
  {
    var u := AddOne(t, fn);
    if u != t {
      var es, fs := t.entries.value, u.entries.value;
      assert fs[|fs| - |u.todo|..] == es[|es| - |t.todo|..] + [Entry(fn, t.next)];
    } else {
      EvolvesAtRest(t);
    }
  }

  lemma {:induction false} AddEvolves(s: State, fns: seq<Fn>)
    requires Orderly(s) && s.entries.Some?
    ensures Evolves(s, AddAll(s, fns))
  {
    if fns == [] {
      EvolvesAtRest(s);
    } else {
      var t := AddAll(s, fns[..|fns| - 1]);
      AddEvolves(s, fns[..|fns| - 1]);
      AddOneEvolves(t, fns[|fns| - 1]);
      EvolvesOn(s, t, AddAll(s, fns));
    }
  }

  lemma {:induction false} WithoutHolds(es: seq<Entry>, fn: Fn)
    ensures forall e :: e in Without(es, fn) <==> e in es && e.fn != fn
  {
    if es != [] {
      WithoutHolds(es[1..], fn);
      assert es == [es[0]] + es[1..];
    }
  }

  lemma {:induction false} WithoutKeepsOrder(es: seq<Entry>, fn: Fn)
    requires Increasing(es)
    ensures Increasing(Without(es, fn))
    ensures forall e :: e in Without(es, fn) <==> e in es && e.fn != fn
  {
    WithoutHolds(es, fn);
    if es != [] {
      WithoutKeepsOrder(es[1..], fn);
    }
  }

  lemma {:induction false} RemoveEvolves(s: State, fns: seq<Fn>)
    requires Orderly(s) && s.entries.Some?
    ensures Evolves(s, RemoveAll(s, fns))
  {
    if fns != [] {
      var t := RemoveAll(s, fns[..|fns| - 1]);
      RemoveEvolves(s, fns[..|fns| - 1]);
      RemoveOneEvolves(t, fns[|fns| - 1]);
      EvolvesOn(s, t, RemoveAll(s, fns));
    }
  }

  lemma RemoveOneEvolves(t: State, fn: Fn)
    requires Orderly(t) && t.entries.Some?
    ensures Evolves(t, t.(entries := Some(Without(t.entries.value, fn)), todo := Without(t.todo, fn)))
  {
    var es := t.entries.value;
    var k := |es| - |t.todo|;
    assert es == es[..k] + es[k..];
    WithoutConcat(es[..k], es[k..], fn);
    WithoutKeepsOrder(es, fn);
    WithoutKeepsOrder(t.todo, fn);
    var fs, todo := Without(es, fn), Without(t.todo, fn);
    assert fs[|fs| - |todo|..] == todo;
    forall e | e in fs && Due(t, e)
      ensures e in todo
    {
    }
  }

  /** Waiting fires, locks and disabling: no entry is gained. */
  lemma OtherOpsEvolve(s: State, op: Op)
    requires Orderly(s) && s.firing && !op.Add? && !op.Remove?
    ensures Evolves(s, Nested(s, op))
  {
    EvolvesAtRest(s);
  }

  lemma NestedEvolves(s: State, op: Op)
    requires Orderly(s) && s.firing
    ensures Evolves(s, Nested(s, op))
  {
    if op.Add? && s.entries.Some? {
      AddEvolves(s, op.fns);
    } else if op.Remove? && s.entries.Some? {
      RemoveEvolves(s, op.fns);
    } else if op.Add? || op.Remove? {
      EvolvesAtRest(s);
    } else {
      OtherOpsEvolve(s, op);
    }
  }

  lemma {:induction false} NestedAllEvolves(s: State, ops: seq<Op>)
    requires Orderly(s) && s.firing
    ensures Evolves(s, NestedAll(s, ops))
  {
    if ops != [] {
      var t := NestedAll(s, ops[..|ops| - 1]);
      NestedAllEvolves(s, ops[..|ops| - 1]);
      NestedEvolves(t, ops[|ops| - 1]);
      EvolvesOn(s, t, NestedAll(s, ops));
    }
  }

  // One batch: from the start of a fire to the last of its calls.

  function Batch(s: State): (r: State)
    requires s.firing
    ensures r.firing && (r.entries.None? || r.todo == [])
    ensures |r.script| < |s.script| || (r.script == s.script && r.queue == s.queue)
    decreases |s.script|, |s.todo|
  {
    if s.entries.Some? && s.todo != [] then Batch(CallFirst(s)) else s
  }

  /** The call number `k` from now on returns false on a list that stops at that. */
  predicate Stopping(s: State, k: nat) {
    s.options.stopOnFalse && k < |s.script| && s.script[k].returnsFalse
  }

  /** The last of the calls stopped the fire. */
  predicate Stopped(s: State, batch: seq<Call>) {
    batch != [] && Stopping(s, |batch| - 1)
  }

  /** The calls `batch`, made between `s` and `r`: each went to a due entry, none was made twice,
      all were made in list order with the data of the fire; none follows one that stopped the
      fire; and every due entry still on the list at the end has been called, or, if the fire was
      stopped, every one of them up to the entry that stopped it. */
  ghost predicate SurvivorsOnce(s: State, r: State, batch: seq<Call>) {
    && (forall c :: c in batch ==> c.data == s.data && Due(s, c.entry))
    && (forall i, j :: 0 <= i < j < |batch| ==> batch[i].entry.id < batch[j].entry.id)
    && (forall k :: 0 <= k < |batch| - 1 ==> !Stopping(s, k))
    && (r.entries.Some? ==>
          forall e :: e in r.entries.value && Due(s, e) && (Stopped(s, batch) ==> e.id <= batch[|batch| - 1].entry.id) ==>
            Call(e, s.data) in batch)
  }

  ghost predicate CallsSurvivorsOnce(s: State, r: State) {
    s.calls <= r.calls && SurvivorsOnce(s, r, r.calls[|s.calls|..])
  }

  /** `t` comes after `s` in the life of a list. */
  ghost predicate Later(s: State, t: State) {
    && Orderly(t) && s.next <= t.next && t.options == s.options && t.data == s.data
    && (t.entries.Some? ==> s.entries.Some? && forall e :: e in t.entries.value ==> e in s.entries.value || e.id >= s.next)
  }

  function Called(s: State): State
    requires s.todo != []
  {
    s.(todo := s.todo[1..], calls := s.calls + [Call(s.todo[0], s.data)])
  }

  lemma CalledOrderly(s: State)
    requires Orderly(s) && s.entries.Some? && s.todo != []
    ensures Orderly(Called(s))
    ensures forall e :: Due(Called(s), e) ==> Due(s, e) && e.id > s.todo[0].id
    ensures forall e :: Due(s, e) ==> e == s.todo[0] || Due(Called(s), e)
  {
  }

  lemma CallEvolves(s: State)
    requires Orderly(s) && s.firing && s.entries.Some? && s.todo != []
    ensures Later(s, CallFirst(s)) && CallFirst(s).calls == Called(s).calls
    ensures forall e :: e in CallFirst(s).todo ==> Due(Called(s), e)
    ensures var t := CallFirst(s);
            && (forall k: nat :: Stopping(t, k) <==> Stopping(s, k + 1))
            && (Stopping(s, 0) ==> t.todo == [])
            && (t.entries.Some? && !Stopping(s, 0) ==> forall e :: e in t.entries.value && Due(Called(s), e) ==> e in t.todo)
  {
    CalledOrderly(s);
    var called := Called(s);
    if s.script == [] {
      EvolvesAtRest(called);
    } else {
      var c := called.(script := s.script[1..]);
      NestedAllEvolves(c, s.script[0].ops);
      var after := NestedAll(c, s.script[0].ops);
      assert forall e :: Due(c, e) <==> Due(called, e);
      assert Later(s, after);
      assert after.entries.Some? ==> after.entries.value[|after.entries.value|..] == [];
    }
  }

  /** The calls from `t` on are those from `s` on but for the first one. */
  ghost predicate OneBehind(s: State, t: State) {
    forall k: nat :: Stopping(t, k) <==> Stopping(s, k + 1)
  }

  lemma OneMoreStep(s: State, t: State, c: Call, rest: seq<Call>)
    requires OneBehind(s, t) && (Stopping(s, 0) ==> rest == [])
    requires forall k :: 0 <= k < |rest| - 1 ==> !Stopping(t, k)
    ensures forall k :: 0 <= k < |rest| ==> !Stopping(s, k)
    ensures rest != [] ==> (Stopped(s, [c] + rest) <==> Stopped(t, rest))
  {
    forall k | 0 <= k < |rest|
      ensures !Stopping(s, k)
    {
      if k > 0 { assert Stopping(t, k - 1) <==> Stopping(s, (k - 1) + 1); }
    }
    if rest != [] {
      assert Stopping(t, |rest| - 1) <==> Stopping(s, (|rest| - 1) + 1);
    }
  }

  /** `t` is the state after the first of the due entries has been called. */
  ghost predicate FirstCalled(s: State, t: State)
    requires s.todo != []
  {
    && t.options == s.options && t.data == s.data && s.next <= t.next && OneBehind(s, t)
    && (forall e :: Due(Called(s), e) ==> Due(s, e) && e.id > s.todo[0].id)
    && (forall e :: Due(s, e) ==> e == s.todo[0] || Due(Called(s), e))
    && (forall e :: e in t.todo ==> Due(Called(s), e))
    && (t.entries.Some? && !Stopping(s, 0) ==> forall e :: e in t.entries.value && Due(Called(s), e) ==> e in t.todo)
  }

  lemma StillCalled(s: State, t: State, r: State, rest: seq<Call>, e: Entry)
    requires s.todo != [] && FirstCalled(s, t) && (Stopping(s, 0) ==> rest == [])
    requires SurvivorsOnce(t, r, rest) && r.entries.Some? && e in r.entries.value
    requires Due(Called(s), e) && e.id > s.todo[0].id
    requires t.entries.Some? && (e in t.entries.value || e.id >= t.next)
    requires var batch := [Call(s.todo[0], s.data)] + rest; Stopped(s, batch) ==> e.id <= batch[|batch| - 1].entry.id
    ensures Call(e, s.data) in rest
  {
    OneMoreStep(s, t, Call(s.todo[0], s.data), rest);
    assert !Stopping(s, 0);
    assert Due(t, e);
  }

  lemma OneMoreInOrder(first: Call, rest: seq<Call>)
    requires forall i, j :: 0 <= i < j < |rest| ==> rest[i].entry.id < rest[j].entry.id
    requires forall c :: c in rest ==> first.entry.id < c.entry.id
    ensures var batch := [first] + rest; forall i, j :: 0 <= i < j < |batch| ==> batch[i].entry.id < batch[j].entry.id
  {
  }

  lemma OneMoreCall(s: State, t: State, r: State, rest: seq<Call>)
    requires s.todo != [] && FirstCalled(s, t) && (Stopping(s, 0) ==> rest == [])
    requires Later(t, r) && SurvivorsOnce(t, r, rest)
    ensures SurvivorsOnce(s, r, [Call(s.todo[0], s.data)] + rest)
  {
    var first := Call(s.todo[0], s.data);
    OneMoreStep(s, t, first, rest);
    forall c | c in rest
      ensures c.data == s.data && Due(s, c.entry) && first.entry.id < c.entry.id
    {
      assert Due(Called(s), c.entry);
    }
    OneMoreInOrder(first, rest);
    if r.entries.Some? {
      var batch := [first] + rest;
      forall e | e in r.entries.value && Due(s, e) && (Stopped(s, batch) ==> e.id <= batch[|batch| - 1].entry.id)
        ensures Call(e, s.data) in batch
      {
        if e != s.todo[0] {
          assert Due(Called(s), e);
          StillCalled(s, t, r, rest, e);
        }
      }
    }
  }

  lemma OneLonger(a: seq<Call>, c: Call, b: seq<Call>)
    requires a + [c] <= b
    ensures a <= b && b[|a|..] == [c] + b[|a| + 1..]
  {
  }

  /** The main result about a single fire. */
  lemma {:induction false} SurvivorsRunOnce(s: State)
    requires Orderly(s) && s.firing
    ensures Later(s, Batch(s)) && CallsSurvivorsOnce(s, Batch(s))
    decreases |s.script|, |s.todo|
  {
    if s.entries.Some? && s.todo != [] {
      var t, r := CallFirst(s), Batch(s);
      CallEvolves(s);
      CalledOrderly(s);
      SurvivorsRunOnce(t);
      if Stopping(s, 0) {
        assert r == t;
      }
      OneMoreCall(s, t, r, r.calls[|t.calls|..]);
      OneLonger(s.calls, Call(s.todo[0], s.data), r.calls);
    } else {
      EvolvesAtRest(s);
    }
  }

  /** An entry that is not on the list when its turn has not come is not called in this batch. */
  lemma GoneIsNotCalled(s: State, e: Entry)
    requires Orderly(s) && s.firing && e.id < s.next && (s.entries.None? || e !in s.entries.value)
    ensures s.calls <= Batch(s).calls && forall c :: c in Batch(s).calls[|s.calls|..] ==> c.entry != e
  {
    SurvivorsRunOnce(s);
    assert !Due(s, e);
  }

  /** What one callback does after its first `k` operations. */
  lemma {:induction false} RestEvolves(s: State, ops: seq<Op>, k: nat)
    requires Orderly(s) && s.firing && k <= |ops|
    ensures Evolves(NestedAll(s, ops[..k]), NestedAll(s, ops))
    decreases |ops|
  {
    var t := NestedAll(s, ops[..k]);
    NestedAllEvolves(s, ops[..k]);
    if k == |ops| {
      assert ops[..k] == ops;
      EvolvesAtRest(t);
    } else {
      var n := |ops| - 1;
      assert ops[..n][..k] == ops[..k];
      RestEvolves(s, ops[..n], k);
      NestedEvolves(NestedAll(s, ops[..n]), ops[n]);
      EvolvesOn(t, NestedAll(s, ops[..n]), NestedAll(s, ops));
    }
  }

  lemma {:induction false} RemoveAllRemoves(s: State, fns: seq<Fn>, e: Entry)
    requires Orderly(s) && s.entries.Some? && e.fn in fns
    ensures e !in RemoveAll(s, fns).entries.value
  {
    var n := |fns| - 1;
    var t := RemoveAll(s, fns[..n]);
    RemoveEvolves(s, fns[..n]);
    WithoutKeepsOrder(t.entries.value, fns[n]);
    if e.fn != fns[n] {
      assert fns == fns[..n] + [fns[n]];
      RemoveAllRemoves(s, fns[..n], e);
    }
  }

  lemma RemovedStaysGone(s: State, ops: seq<Op>, k: nat, e: Entry)
    requires Orderly(s) && s.firing && k < |ops| && ops[k].Remove? && e.fn in ops[k].fns
    requires e.id < NestedAll(s, ops[..k]).next
    ensures var t := NestedAll(s, ops);
      e.id < t.next && (t.entries.None? || e !in t.entries.value)
  {
    var t, u := NestedAll(s, ops[..k]), NestedAll(s, ops[..k + 1]);
    NestedAllEvolves(s, ops[..k]);
    NestedEvolves(t, ops[k]);
    assert ops[..k + 1][..k] == ops[..k];
    if t.entries.Some? {
      RemoveAllRemoves(t, ops[k].fns, e);
    }
    RestEvolves(s, ops, k + 1);
  }

  /** Nothing else runs: an entry that the callback being called removes (with its operation `k`)
      is not called later in the batch, whatever the callback does before and after that. */
  lemma RemovedIsNotCalled(s: State, k: nat, e: Entry)
    requires Orderly(s) && s.firing && s.entries.Some? && s.todo != [] && s.script != []
    requires var ops := s.script[0].ops;
             && k < |ops| && ops[k].Remove? && e.fn in ops[k].fns
             && e.id < NestedAll(Called(s).(script := s.script[1..]), ops[..k]).next
    ensures s.calls + [Call(s.todo[0], s.data)] <= Batch(s).calls
    ensures forall c :: c in Batch(s).calls[|s.calls| + 1..] ==> c.entry != e
  {
    var ops, c := s.script[0].ops, Called(s).(script := s.script[1..]);
    CalledOrderly(s);
    CallEvolves(s);
    RemovedStaysGone(c, ops, k, e);
    GoneIsNotCalled(CallFirst(s), e);
  }

  // Whole lives.

  /** Calling everything first and then turning to the waiting fires is what a list does. */
  lemma {:induction false} DrainIsBatchFirst(s: State)
    requires s.firing
    ensures Drain(s) == Drain(Batch(s))
    decreases |s.script|, |s.todo|
  {
    if s.entries.Some? && s.todo != [] {
      DrainCalls(s);
      DrainIsBatchFirst(CallFirst(s));
    }
  }

  /** The batches, each as its first and last state, that one call of `fire` goes through. */
  ghost function Batches(s: State): seq<(State, State)>
    requires s.firing
    decreases |s.script|, QueueLength(s)
  {
    var r := Batch(s);
    [(s, r)] + if r.entries.Some? && r.queue.Some? && r.queue.value != [] then Batches(NextFire(r)) else []
  }

  /** The batches set off by an operation on a list at rest. */
  ghost function BatchesOf(s: State, op: Op): seq<(State, State)>
    requires !s.firing
  {
    match op
    case Add(fns) =>
      if s.entries.None? then [] else
        var r := AddAll(s.(todo := []), fns);
        if r.memory.Some? then Batches(Begin(r, r.todo, r.memory.value)) else []
    case FireWith(d) =>
      if s.entries.Some? && (!s.fired || s.queue.Some?) then
        Batches(Begin(s.(asked := s.asked + [d], started := s.started + [d]), s.entries.value, d))
      else []
    case _ => []
  }

  ghost function LifeBatches(options: Options, script: seq<Behaviour>, ops: seq<Op>): seq<(State, State)> {
    if ops == [] then [] else
      var before := ops[..|ops| - 1];
      LifeBatches(options, script, before) + BatchesOf(Life(options, script, before), ops[|ops| - 1])
  }

  /** At rest nothing is left to call, and no accepted fire is left waiting: the fires asked
      for were started in the order they were asked for (unless a lock dropped the last ones). */
  ghost predicate Rested(s: State) {
    && Orderly(s) && s.todo == [] && Queued(s)
    && (s.queue.Some? ==> s.queue.value == [])
  }

  /** First in, first out. */
  ghost predicate Queued(s: State) {
    && s.started <= s.asked
    && (s.entries.None? ==> s.queue.None?)
    && (!s.fired ==> s.asked == [])
    && (s.queue.Some? ==> s.asked == s.started + s.queue.value)
  }

  lemma {:induction false} AddQueued(s: State, fns: seq<Fn>)
    requires s.entries.Some?
    ensures AddAll(s, fns).asked == s.asked && AddAll(s, fns).started == s.started && AddAll(s, fns).options == s.options
    ensures AddAll(s, fns).memory == s.memory && AddAll(s, fns).fired == s.fired
  {
    if fns != [] { AddQueued(s, fns[..|fns| - 1]); }
  }

  lemma {:induction false} RemoveQueued(s: State, fns: seq<Fn>)
    requires s.entries.Some?
    ensures RemoveAll(s, fns).asked == s.asked && RemoveAll(s, fns).started == s.started && RemoveAll(s, fns).options == s.options
    ensures RemoveAll(s, fns).fired == s.fired
  {
    if fns != [] { RemoveQueued(s, fns[..|fns| - 1]); }
  }

  lemma {:induction false} NestedQueued(s: State, ops: seq<Op>)
    requires s.firing && s.fired && Queued(s)
    ensures NestedAll(s, ops).fired && Queued(NestedAll(s, ops))
  {
    if ops != [] {
      var t := NestedAll(s, ops[..|ops| - 1]);
      NestedQueued(s, ops[..|ops| - 1]);
      match ops[|ops| - 1]
      case Add(fns) => if t.entries.Some? { AddQueued(t, fns); }
      case Remove(fns) => if t.entries.Some? { RemoveQueued(t, fns); }
      case _ =>
    }
  }

  lemma {:induction false} BatchQueued(s: State)
    requires s.firing && s.fired && Queued(s)
    ensures Batch(s).fired && Queued(Batch(s))
    decreases |s.script|, |s.todo|
  {
    if s.entries.Some? && s.todo != [] {
      if s.script != [] { NestedQueued(Called(s).(script := s.script[1..]), s.script[0].ops); }
      BatchQueued(CallFirst(s));
    }
  }

  lemma BatchRests(s: State)
    requires s.firing && s.fired && Orderly(s) && Queued(s)
    ensures Orderly(Batch(s)) && Batch(s).options == s.options
    ensures Batch(s).fired && Queued(Batch(s)) && CallsSurvivorsOnce(s, Batch(s))
  {
    SurvivorsRunOnce(s);
    BatchQueued(s);
  }

  ghost predicate AllOnce(options: Options, batches: seq<(State, State)>) {
    forall b :: b in batches ==> b.0.options == options && CallsSurvivorsOnce(b.0, b.1)
  }

  lemma NextBatch(r: State)
    requires r.firing && r.fired && Orderly(r) && Queued(r)
    requires r.entries.Some? && r.queue.Some? && r.queue.value != []
    ensures NextFire(r).fired && Orderly(NextFire(r)) && Queued(NextFire(r)) && NextFire(r).options == r.options
  {
    assert r.entries.value[0..] == r.entries.value;
  }

  lemma {:induction false} FireRests(s: State)
    requires s.firing && s.fired && Orderly(s) && Queued(s)
    ensures Rested(Drain(s)) && Drain(s).options == s.options
    ensures AllOnce(s.options, Batches(s))
    decreases |s.script|, QueueLength(s)
  {
    var r := Batch(s);
    BatchRests(s);
    DrainIsBatchFirst(s);
    if r.entries.Some? && r.queue.Some? && r.queue.value != [] {
      NextBatch(r);
      FireRests(NextFire(r));
    } else {
      assert Drain(r) == AtRest(r);
    }
  }

  lemma OuterRests(s: State, op: Op)
    requires !s.firing && Rested(s)
    ensures Rested(Outer(s, op)) && Outer(s, op).options == s.options
    ensures AllOnce(s.options, BatchesOf(s, op))
  {
    match op
    case Add(fns) =>
      if s.entries.Some? {
        var r := AddAll(s.(todo := []), fns);
        AddEvolves(s, fns);
        AddQueued(s, fns);
        if r.memory.Some? {
          FireRests(Begin(r, r.todo, r.memory.value));
        } else {
          assert r.entries.value[|r.entries.value|..] == [];
        }
      }
    case Remove(fns) => if s.entries.Some? { RemoveEvolves(s, fns); RemoveQueued(s, fns); NothingDue(s, fns); }
    case FireWith(d) =>
      if s.entries.Some? && (!s.fired || s.queue.Some?) {
        assert s.entries.value[0..] == s.entries.value;
        FireRests(Begin(s.(asked := s.asked + [d], started := s.started + [d]), s.entries.value, d));
      }
    case _ =>
  }

  lemma {:induction false} NothingDue(s: State, fns: seq<Fn>)
    requires s.entries.Some? && s.todo == []
    ensures RemoveAll(s, fns).todo == []
  {
    if fns != [] { NothingDue(s, fns[..|fns| - 1]); }
  }

  /** Over every life of every list: each batch calls the surviving entries exactly once and in
      order, whatever its callbacks add, remove, fire, lock or disable; and fires run first in,
      first out. */
  lemma {:induction false} EveryLife(options: Options, script: seq<Behaviour>, ops: seq<Op>)
    ensures Rested(Life(options, script, ops)) && Life(options, script, ops).options == options
    ensures AllOnce(options, LifeBatches(options, script, ops))
  {
    if ops != [] {
      var before := ops[..|ops| - 1];
      EveryLife(options, script, before);
      OuterRests(Life(options, script, before), ops[|ops| - 1]);
    }
  }
}
