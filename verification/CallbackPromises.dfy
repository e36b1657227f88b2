/** What jQuery.Callbacks is documented to do, read off the calls that a list makes: fires, memory,
    and the options once and unique. */
module CallbackPromises {
  import opened Wrappers
  import opened Callbacks
  import opened CallbackRuns

  // What an operation leaves behind: records only grow.

  lemma {:induction false} AddRecords(s: State, fns: seq<Fn>)
    requires s.entries.Some?
    ensures AddAll(s, fns).calls == s.calls && AddAll(s, fns).data == s.data
  {
    if fns != [] { AddRecords(s, fns[..|fns| - 1]); }
  }

  lemma {:induction false} RemoveRecords(s: State, fns: seq<Fn>)
    requires s.entries.Some?
    ensures RemoveAll(s, fns).calls == s.calls && RemoveAll(s, fns).data == s.data
  {
    if fns != [] { RemoveRecords(s, fns[..|fns| - 1]); }
  }

  /** `r` comes after `s`, and nothing that was recorded is forgotten. */
  ghost predicate Records(s: State, r: State) {
    s.calls <= r.calls && s.asked <= r.asked && s.started <= r.started && r.options == s.options
  }

  lemma NestedRecords(s: State, op: Op)
    requires s.firing
    ensures var r := Nested(s, op);
      Records(s, r) && r.calls == s.calls && r.started == s.started && r.fired == s.fired && r.data == s.data
  {
    match op
    case Add(fns) => if s.entries.Some? { AddQueued(s, fns); AddRecords(s, fns); }
    case Remove(fns) => if s.entries.Some? { RemoveQueued(s, fns); RemoveRecords(s, fns); }
    case _ =>
  }

  lemma {:induction false} NestedAllRecords(s: State, ops: seq<Op>)
    requires s.firing
    ensures var r := NestedAll(s, ops);
      Records(s, r) && r.calls == s.calls && r.started == s.started && r.fired == s.fired && r.data == s.data
  {
    if ops != [] {
      NestedAllRecords(s, ops[..|ops| - 1]);
      NestedRecords(NestedAll(s, ops[..|ops| - 1]), ops[|ops| - 1]);
    }
  }

  lemma CallRecords(s: State)
    requires s.firing && s.entries.Some? && s.todo != []
    ensures var r := CallFirst(s);
      && Records(s, r) && r.calls == s.calls + [Call(s.todo[0], s.data)] && r.started == s.started
      && r.fired == s.fired && r.data == s.data
  {
    if s.script != [] { NestedAllRecords(Called(s).(script := s.script[1..]), s.script[0].ops); }
  }

  lemma {:induction false} BatchRecords(s: State)
    requires s.firing
    ensures var r := Batch(s); Records(s, r) && r.started == s.started && r.data == s.data
    decreases |s.script|, |s.todo|
  {
    if s.entries.Some? && s.todo != [] {
      CallRecords(s);
      BatchRecords(CallFirst(s));
    }
  }

  lemma {:induction false} DrainRecords(s: State)
    requires s.firing
    ensures Records(s, Drain(s))
    decreases |s.script|, QueueLength(s)
  {
    var r := Batch(s);
    BatchRecords(s);
    DrainIsBatchFirst(s);
    if r.entries.Some? && r.queue.Some? && r.queue.value != [] {
      DrainRecords(NextFire(r));
    }
  }

  // The calls of a life are those of its batches.

  /** The calls made between the two ends of a batch. */
  ghost function Made(b: (State, State)): seq<Call>
    requires b.0.calls <= b.1.calls
  {
    b.1.calls[|b.0.calls|..]
  }

  /** The batches follow one another from `before` to `after`: each starts where the one before it
      ended, and adds its own calls. */
  ghost predicate Follow(bs: seq<(State, State)>, before: seq<Call>, after: seq<Call>) {
    if bs == [] then before == after
    else bs[0].0.calls == before && before <= bs[0].1.calls && Follow(bs[1..], bs[0].1.calls, after)
  }

  ghost function AllMade(bs: seq<(State, State)>, before: seq<Call>, after: seq<Call>): seq<Call>
    requires Follow(bs, before, after)
  {
    if bs == [] then [] else Made(bs[0]) + AllMade(bs[1..], bs[0].1.calls, after)
  }

  lemma {:induction false} FollowIsConcat(bs: seq<(State, State)>, before: seq<Call>, after: seq<Call>)
    requires Follow(bs, before, after)
    ensures after == before + AllMade(bs, before, after)
  {
    if bs != [] {
      FollowIsConcat(bs[1..], bs[0].1.calls, after);
      assert bs[0].1.calls == before + Made(bs[0]);
    }
  }

  lemma {:induction false} FollowOn(a: seq<(State, State)>, b: seq<(State, State)>, x: seq<Call>, y: seq<Call>, z: seq<Call>)
    requires Follow(a, x, y) && Follow(b, y, z)
    ensures Follow(a + b, x, z)
  {
    if a == [] {
      assert a + b == b;
    } else {
      FollowOn(a[1..], b, a[0].1.calls, y, z);
      assert (a + b)[1..] == a[1..] + b;
    }
  }

  /** The data that the batches start with. */
  ghost function Datas(bs: seq<(State, State)>): seq<Data> {
    if bs == [] then [] else [bs[0].0.data] + Datas(bs[1..])
  }

  lemma BatchesOn(s: State)
    requires s.firing
    ensures var b := Batch(s);
      if b.entries.Some? && b.queue.Some? && b.queue.value != [] then
        Batches(s) == [(s, b)] + Batches(NextFire(b)) && Drain(s) == Drain(NextFire(b))
      else
        Batches(s) == [(s, b)] && Drain(s) == AtRest(b)
  {
    DrainIsBatchFirst(s);
  }

  /** The batches of one fire account for all its calls. */
  lemma {:induction false} FireFollows(s: State)
    requires s.firing
    ensures Follow(Batches(s), s.calls, Drain(s).calls)
    decreases |s.script|, QueueLength(s)
  {
    var b := Batch(s);
    BatchRecords(s);
    BatchesOn(s);
    if b.entries.Some? && b.queue.Some? && b.queue.value != [] {
      FireFollows(NextFire(b));
      assert Batches(s)[1..] == Batches(NextFire(b));
    } else {
      assert Batches(s)[1..] == [];
    }
  }

  /** After the first, each batch starts with every entry and with the data of the fire that has
      waited longest. */
  lemma {:induction false} FireStarts(s: State)
    requires s.firing
    ensures s.started <= Drain(s).started && Datas(Batches(s)) == [s.data] + Drain(s).started[|s.started|..]
    ensures forall b :: b in Batches(s)[1..] ==> b.0.entries == Some(b.0.todo)
    decreases |s.script|, QueueLength(s)
  {
    var b := Batch(s);
    BatchRecords(s);
    BatchesOn(s);
    if b.entries.Some? && b.queue.Some? && b.queue.value != [] {
      var next := NextFire(b);
      FireStarts(next);
      OneStarted(s, b, Batches(s), next, Batches(next), Drain(s).started);
    }
  }

  lemma OneStarted(s: State, b: State, bs: seq<(State, State)>, next: State, rest: seq<(State, State)>, started: seq<Data>)
    requires bs == [(s, b)] + rest && rest != [] && rest[0].0 == next
    requires next.started == s.started + [next.data] && next.started <= started && next.entries == Some(next.todo)
    requires Datas(rest) == [next.data] + started[|next.started|..]
    requires forall b :: b in rest[1..] ==> b.0.entries == Some(b.0.todo)
    ensures s.started <= started && Datas(bs) == [s.data] + started[|s.started|..]
    ensures forall b :: b in bs[1..] ==> b.0.entries == Some(b.0.todo)
  {
    assert bs[1..] == rest == [rest[0]] + rest[1..];
    assert started[|s.started|..] == [next.data] + started[|next.started|..];
  }

  lemma OpFollows(s: State, op: Op)
    requires !s.firing
    ensures Follow(BatchesOf(s, op), s.calls, Outer(s, op).calls)
  {
    match op
    case Add(fns) =>
      if s.entries.Some? {
        var r := AddAll(s.(todo := []), fns);
        AddRecords(s.(todo := []), fns);
        if r.memory.Some? { FireFollows(Begin(r, r.todo, r.memory.value)); }
      }
    case Remove(fns) => if s.entries.Some? { RemoveRecords(s, fns); }
    case FireWith(d) =>
      if s.entries.Some? && (!s.fired || s.queue.Some?) {
        FireFollows(Begin(s.(asked := s.asked + [d], started := s.started + [d]), s.entries.value, d));
      }
    case _ =>
  }

  lemma {:induction false} LifeFollows(options: Options, script: seq<Behaviour>, ops: seq<Op>)
    ensures Follow(LifeBatches(options, script, ops), [], Life(options, script, ops).calls)
  {
    if ops != [] {
      var before, op := ops[..|ops| - 1], ops[|ops| - 1];
      var s := Life(options, script, before);
      LifeFollows(options, script, before);
      OpFollows(s, op);
      FollowOn(LifeBatches(options, script, before), BatchesOf(s, op), [], s.calls, Outer(s, op).calls);
    }
  }

  /** A list makes no call that is not one of a batch, and all the calls of the batches, one
      batch after another. */
  lemma {:induction false} CallsOfLife(options: Options, script: seq<Behaviour>, ops: seq<Op>)
    ensures Follow(LifeBatches(options, script, ops), [], Life(options, script, ops).calls)
    ensures Life(options, script, ops).calls == AllMade(LifeBatches(options, script, ops), [], Life(options, script, ops).calls)
  {
    LifeFollows(options, script, ops);
    MadeFromStart(LifeBatches(options, script, ops), Life(options, script, ops).calls);
  }

  lemma MadeFromStart(bs: seq<(State, State)>, calls: seq<Call>)
    requires Follow(bs, [], calls)
    ensures calls == AllMade(bs, [], calls)
  {
    FollowIsConcat(bs, [], calls);
    assert [] + AllMade(bs, [], calls) == AllMade(bs, [], calls);
  }

  // Fires.

  /** One call for each entry, in order. */
  function CallEach(es: seq<Entry>, d: Data): seq<Call> {
    seq(|es|, i requires 0 <= i < |es| => Call(es[i], d))
  }

  /** No callback touches the list or stops a fire. */
  predicate Quiet(s: State) {
    forall b :: b in s.script ==> b.ops == [] && !(b.returnsFalse && s.options.stopOnFalse)
  }

  lemma QuietCall(s: State)
    requires s.firing && s.entries.Some? && Quiet(s) && s.todo != []
    ensures var t := CallFirst(s);
      && t.script == (if s.script == [] then [] else s.script[1..])
      && t == s.(script := t.script, todo := s.todo[1..], calls := s.calls + [Call(s.todo[0], s.data)])
      && Quiet(t) && Drain(s) == Drain(t)
  {
    DrainCalls(s);
    if s.script != [] { assert s.script[0] in s.script; }
  }

  lemma {:induction false} QuietDrain(s: State)
    requires s.firing && s.entries.Some? && Quiet(s) && QueueLength(s) == 0
    ensures var r := Drain(s);
      && r.calls == s.calls + CallEach(s.todo, s.data) && r.asked == s.asked && r.started == s.started
      && r.memory == s.memory
    decreases |s.todo|
  {
    if s.todo != [] {
      QuietCall(s);
      QuietDrain(CallFirst(s));
      assert CallEach(s.todo, s.data) == [Call(s.todo[0], s.data)] + CallEach(s.todo[1..], s.data);
    } else {
      assert CallEach(s.todo, s.data) == [];
      assert Drain(s) == AtRest(s);
    }
  }

  lemma FirstIsCalled(s: State)
    requires s.firing && s.entries.Some? && s.todo != []
    ensures s.calls + [Call(s.todo[0], s.data)] <= Drain(s).calls
  {
    CallRecords(s);
    DrainRecords(CallFirst(s));
    DrainCalls(s);
  }

  /** A fire of a list at rest, unless it has been disabled, or has fired and may not again, is
      carried out: it calls the first entry first, and callbacks that do nothing are all called,
      in order and with its data. Any other fire does nothing. */
  lemma FireCalls(s: State, d: Data)
    requires !s.firing
    ensures var r, accepted := Outer(s, FireWith(d)), s.entries.Some? && (!s.fired || s.queue.Some?);
      && (!accepted ==> r == s)
      && (accepted ==> s.asked + [d] <= r.asked && s.started + [d] <= r.started)
      && (accepted && s.entries.value != [] ==> s.calls + [Call(s.entries.value[0], d)] <= r.calls)
      && (accepted && Quiet(s) && QueueLength(s) == 0 ==>
            && r.calls == s.calls + CallEach(s.entries.value, d)
            && r.asked == s.asked + [d] && r.started == s.started + [d]
            && r.memory == if s.options.memory then Some(d) else None)
  {
    if s.entries.Some? && (!s.fired || s.queue.Some?) {
      var t := Begin(s.(asked := s.asked + [d], started := s.started + [d]), s.entries.value, d);
      assert Outer(s, FireWith(d)) == Drain(t);
      DrainRecords(t);
      if t.todo != [] { FirstIsCalled(t); }
      if Quiet(s) && QueueLength(s) == 0 { QuietDrain(t); }
    }
  }

  // Adding, and the option unique.

  /** Callback number `k` of those handed to `add` gets an entry. */
  predicate IsNew(es: seq<Entry>, unique: bool, fns: seq<Fn>, k: nat)
    requires k < |fns|
  {
    unique ==> !HasFn(es, fns[k]) && forall i :: 0 <= i < k ==> fns[i] != fns[k]
  }

  /** The entries made for callbacks that are handed to `add`. */
  function NewEntries(es: seq<Entry>, unique: bool, fns: seq<Fn>, next: nat): seq<Entry> {
    if fns == [] then [] else
      var k := |fns| - 1;
      var front := NewEntries(es, unique, fns[..k], next);
      front + if IsNew(es, unique, fns, k) then [Entry(fns[k], next + |front|)] else []
  }

  lemma {:induction false} NewHas(es: seq<Entry>, fns: seq<Fn>, next: nat, fn: Fn)
    ensures HasFn(es + NewEntries(es, true, fns, next), fn) <==> HasFn(es, fn) || fn in fns
  {
    var news := NewEntries(es, true, fns, next);
    if fns == [] {
      assert es + news == es;
    } else {
      var k := |fns| - 1;
      var front := NewEntries(es, true, fns[..k], next);
      NewHas(es, fns[..k], next, fn);
      NewHas(es, fns[..k], next, fns[k]);
      assert fns == fns[..k] + [fns[k]];
      HasConcat(es + front, if IsNew(es, true, fns, k) then [Entry(fns[k], next + |front|)] else [], fn);
      assert es + news == es + front + if IsNew(es, true, fns, k) then [Entry(fns[k], next + |front|)] else [];
      if !IsNew(es, true, fns, k) && fn == fns[k] && !HasFn(es, fn) {
        assert fns[k] in fns[..k];
      }
    }
  }

  lemma HasConcat(a: seq<Entry>, b: seq<Entry>, fn: Fn)
    ensures HasFn(a + b, fn) <==> HasFn(a, fn) || HasFn(b, fn)
  {
    if k :| 0 <= k < |a| && a[k].fn == fn { assert (a + b)[k].fn == fn; }
    if k :| 0 <= k < |b| && b[k].fn == fn { assert (a + b)[|a| + k].fn == fn; }
  }

  /** What is added is exactly an entry for each callback handed over, behind the others and in
      order; on a unique list only for those that are not there yet, each once. */
  lemma {:induction false} AddAllAdds(s: State, fns: seq<Fn>)
    requires s.entries.Some?
    ensures var news := NewEntries(s.entries.value, s.options.unique, fns, s.next);
      AddAll(s, fns) == s.(entries := Some(s.entries.value + news), todo := s.todo + news, next := s.next + |news|)
  {
    var es := s.entries.value;
    if fns == [] {
      assert es + [] == es && s.todo + [] == s.todo;
    } else {
      var k := |fns| - 1;
      var front, news := NewEntries(es, s.options.unique, fns[..k], s.next), NewEntries(es, s.options.unique, fns, s.next);
      var t := AddAll(s, fns[..k]);
      AddAllAdds(s, fns[..k]);
      if s.options.unique {
        NewHas(es, fns[..k], s.next, fns[k]);
        assert fns[k] in fns[..k] <==> exists i :: 0 <= i < k && fns[i] == fns[k];
      }
      assert s.options.unique && HasFn(es + front, fns[k]) <==> !IsNew(es, s.options.unique, fns, k);
      if IsNew(es, s.options.unique, fns, k) {
        var one := [Entry(fns[k], s.next + |front|)];
        assert news == front + one;
        assert es + (front + one) == es + front + one && s.todo + (front + one) == s.todo + front + one;
        assert AddOne(t, fns[k]) == t.(entries := Some(es + front + one), todo := s.todo + front + one, next := s.next + |front| + 1);
      } else {
        assert news == front && AddOne(t, fns[k]) == t;
      }
    }
  }

  /** Adding to a list at rest: without memory nothing is called; with it, the new entries, and no
      others, are called at once with the remembered data. */
  lemma AddCalls(s: State, fns: seq<Fn>)
    requires !s.firing && s.entries.Some?
    ensures var r, es := Outer(s, Add(fns)), s.entries.value;
      var news := NewEntries(es, s.options.unique, fns, s.next);
      && (s.memory.None? ==> r.calls == s.calls && r.entries == Some(es + news))
      && (s.memory.Some? && news != [] ==> s.calls + [Call(news[0], s.memory.value)] <= r.calls)
      && (s.memory.Some? && Quiet(s) && QueueLength(s) == 0 ==>
            r.calls == s.calls + CallEach(news, s.memory.value) && r.asked == s.asked && r.started == s.started)
  {
    var t := AddAll(s.(todo := []), fns);
    AddAllAdds(s.(todo := []), fns);
    if s.memory.Some? {
      var b := Begin(t, t.todo, t.memory.value);
      if b.todo != [] { FirstIsCalled(b); }
      if Quiet(s) && QueueLength(s) == 0 { QuietDrain(b); }
    }
  }

  ghost predicate Distinct(es: seq<Entry>) {
    forall i, j :: 0 <= i < j < |es| ==> es[i].fn != es[j].fn
  }

  /** No callback is on the list twice. */
  ghost predicate NoneTwice(s: State) {
    s.entries.Some? ==> Distinct(s.entries.value)
  }

  lemma {:induction false} AddKeepsUnique(s: State, fns: seq<Fn>)
    requires s.entries.Some? && s.options.unique && NoneTwice(s)
    ensures NoneTwice(AddAll(s, fns)) && AddAll(s, fns).options == s.options
  {
    if fns != [] { AddKeepsUnique(s, fns[..|fns| - 1]); }
  }

  lemma {:induction false} WithoutKeepsUnique(es: seq<Entry>, fn: Fn)
    requires Distinct(es)
    ensures Distinct(Without(es, fn))
  {
    if es != [] {
      var rest := Without(es[1..], fn);
      WithoutKeepsUnique(es[1..], fn);
      WithoutHolds(es[1..], fn);
      forall j | 0 <= j < |rest|
        ensures rest[j].fn != es[0].fn
      {
        assert rest[j] in rest;
        var i :| 0 <= i < |es[1..]| && es[1..][i] == rest[j];
        assert es[i + 1] == rest[j];
      }
      assert Without(es, fn) == if es[0].fn == fn then rest else [es[0]] + rest;
    }
  }

  lemma {:induction false} RemoveKeepsUnique(s: State, fns: seq<Fn>)
    requires s.entries.Some? && NoneTwice(s)
    ensures NoneTwice(RemoveAll(s, fns)) && RemoveAll(s, fns).options == s.options
  {
    if fns != [] {
      var t := RemoveAll(s, fns[..|fns| - 1]);
      RemoveKeepsUnique(s, fns[..|fns| - 1]);
      WithoutKeepsUnique(t.entries.value, fns[|fns| - 1]);
      assert RemoveAll(s, fns).entries == Some(Without(t.entries.value, fns[|fns| - 1]));
    }
  }

  lemma {:induction false} NestedKeepsUnique(s: State, ops: seq<Op>)
    requires s.firing && s.options.unique && NoneTwice(s)
    ensures NoneTwice(NestedAll(s, ops)) && NestedAll(s, ops).options == s.options
  {
    if ops != [] {
      var t := NestedAll(s, ops[..|ops| - 1]);
      NestedKeepsUnique(s, ops[..|ops| - 1]);
      match ops[|ops| - 1]
      case Add(fns) => if t.entries.Some? { AddKeepsUnique(t, fns); }
      case Remove(fns) => if t.entries.Some? { RemoveKeepsUnique(t, fns); }
      case _ =>
    }
  }

  lemma {:induction false} DrainKeepsUnique(s: State)
    requires s.firing && s.options.unique && NoneTwice(s)
    ensures NoneTwice(Drain(s)) && Drain(s).options == s.options
    decreases |s.script|, QueueLength(s), |s.todo|
  {
    if s.entries.Some? && s.todo != [] {
      if s.script != [] { NestedKeepsUnique(Called(s).(script := s.script[1..]), s.script[0].ops); }
      DrainKeepsUnique(CallFirst(s));
    } else if s.entries.Some? && s.queue.Some? && s.queue.value != [] {
      DrainKeepsUnique(NextFire(s));
    }
  }

  /** unique: in every life, whatever callbacks do, no callback is ever on the list twice. */
  lemma {:induction false} UniqueLife(options: Options, script: seq<Behaviour>, ops: seq<Op>)
    requires options.unique
    ensures NoneTwice(Life(options, script, ops)) && Life(options, script, ops).options == options
  {
    if ops != [] {
      var s := Life(options, script, ops[..|ops| - 1]);
      UniqueLife(options, script, ops[..|ops| - 1]);
      match ops[|ops| - 1]
      case Add(fns) =>
        if s.entries.Some? {
          var r := AddAll(s.(todo := []), fns);
          AddKeepsUnique(s.(todo := []), fns);
          if r.memory.Some? { DrainKeepsUnique(Begin(r, r.todo, r.memory.value)); }
        }
      case Remove(fns) => if s.entries.Some? { RemoveKeepsUnique(s, fns); }
      case FireWith(d) =>
        if s.entries.Some? && (!s.fired || s.queue.Some?) {
          DrainKeepsUnique(Begin(s.(asked := s.asked + [d], started := s.started + [d]), s.entries.value, d));
        }
      case _ =>
    }
  }

  // Removing.

  /** What is removed is every entry of every callback handed over, and nothing else. */
  lemma {:induction false} RemoveAllTakes(s: State, fns: seq<Fn>)
    requires s.entries.Some? && Increasing(s.entries.value)
    ensures var r := RemoveAll(s, fns);
      && Increasing(r.entries.value) && forall e :: e in r.entries.value <==> e in s.entries.value && e.fn !in fns
  {
    if fns != [] {
      var k := |fns| - 1;
      RemoveAllTakes(s, fns[..k]);
      WithoutKeepsOrder(RemoveAll(s, fns[..k]).entries.value, fns[k]);
      assert fns == fns[..k] + [fns[k]];
    }
  }

  /** Removing, from outside or by a callback, takes every entry of those callbacks and no other,
      and calls nothing. */
  lemma RemoveTakes(s: State, fns: seq<Fn>)
    requires Orderly(s) && s.entries.Some?
    ensures var r := if s.firing then Nested(s, Remove(fns)) else Outer(s, Remove(fns));
      && r.calls == s.calls && r.entries.Some? && Increasing(r.entries.value)
      && forall e :: e in r.entries.value <==> e in s.entries.value && e.fn !in fns
  {
    RemoveRecords(s, fns);
    RemoveAllTakes(s, fns);
  }

  // The option memory.

  /** What is remembered is what the last fire was started with, and only with the option. */
  ghost predicate Remembers(s: State) {
    s.memory.Some? ==> s.options.memory && s.fired && s.started != [] && s.memory.value == s.started[|s.started| - 1]
  }

  lemma {:induction false} NestedRemembers(s: State, ops: seq<Op>)
    requires s.firing
    ensures NestedAll(s, ops).memory.None? || NestedAll(s, ops).memory == s.memory
  {
    if ops != [] {
      var t := NestedAll(s, ops[..|ops| - 1]);
      NestedRemembers(s, ops[..|ops| - 1]);
      match ops[|ops| - 1]
      case Add(fns) => if t.entries.Some? { AddQueued(t, fns); }
      case Remove(fns) => if t.entries.Some? { RemoveMemory(t, fns); }
      case _ =>
    }
  }

  lemma {:induction false} RemoveMemory(s: State, fns: seq<Fn>)
    requires s.entries.Some?
    ensures RemoveAll(s, fns).memory == s.memory
  {
    if fns != [] { RemoveMemory(s, fns[..|fns| - 1]); }
  }

  lemma CallRemembers(s: State)
    requires s.firing && s.entries.Some? && s.todo != [] && Remembers(s)
    ensures Remembers(CallFirst(s))
  {
    CallRecords(s);
    if s.script != [] { NestedRemembers(Called(s).(script := s.script[1..]), s.script[0].ops); }
  }

  lemma {:induction false} DrainRemembers(s: State)
    requires s.firing && Remembers(s)
    ensures Remembers(Drain(s))
    decreases |s.script|, QueueLength(s), |s.todo|
  {
    if s.entries.Some? && s.todo != [] {
      CallRemembers(s);
      DrainRemembers(CallFirst(s));
    } else if s.entries.Some? && s.queue.Some? && s.queue.value != [] {
      DrainRemembers(NextFire(s));
    }
  }

  lemma OuterRemembers(s: State, op: Op)
    requires !s.firing && Remembers(s)
    ensures Remembers(Outer(s, op))
  {
    match op
    case Add(fns) =>
      if s.entries.Some? {
        var r := AddAll(s.(todo := []), fns);
        AddQueued(s.(todo := []), fns);
        if r.memory.Some? { DrainRemembers(Begin(r, r.todo, r.memory.value)); }
      }
    case Remove(fns) => if s.entries.Some? { RemoveQueued(s, fns); RemoveMemory(s, fns); }
    case FireWith(d) =>
      if s.entries.Some? && (!s.fired || s.queue.Some?) {
        DrainRemembers(Begin(s.(asked := s.asked + [d], started := s.started + [d]), s.entries.value, d));
      }
    case _ =>
  }

  /** memory: in every life, what is remembered for late callbacks is what the last fire was
      started with, and without the option nothing is. */
  lemma {:induction false} MemoryLife(options: Options, script: seq<Behaviour>, ops: seq<Op>)
    ensures Remembers(Life(options, script, ops))
  {
    if ops != [] {
      MemoryLife(options, script, ops[..|ops| - 1]);
      OuterRemembers(Life(options, script, ops[..|ops| - 1]), ops[|ops| - 1]);
    }
  }

  // The option stopOnFalse.

  /** stopOnFalse: a callback that returns false is the last one called, and nothing is remembered
      for late callbacks; only fires that wait go on. */
  lemma StoppedForgets(s: State)
    requires s.firing && s.entries.Some? && s.todo != [] && Stopping(s, 0)
    ensures var t, r := CallFirst(s), Drain(s);
      && t.todo == [] && t.memory.None? && t.calls == s.calls + [Call(s.todo[0], s.data)]
      && (QueueLength(t) == 0 ==> r.calls == t.calls && r.memory.None?)
      && (t.entries.Some? && QueueLength(t) > 0 ==> r == Drain(NextFire(t)))
  {
    CallRecords(s);
    DrainCalls(s);
  }

  // The option once.

  /** At most one fire has been started, and none if the list has not fired. */
  ghost predicate FiredOnce(s: State) {
    && s.queue.None? && |s.started| <= 1 && s.asked == s.started && (!s.fired ==> s.started == [])
  }

  lemma {:induction false} NestedOnce(s: State, ops: seq<Op>)
    requires s.firing && s.queue.None?
    ensures var r := NestedAll(s, ops);
      r.queue.None? && r.asked == s.asked && r.started == s.started && r.fired == s.fired && r.options == s.options
  {
    if ops != [] {
      var t := NestedAll(s, ops[..|ops| - 1]);
      NestedOnce(s, ops[..|ops| - 1]);
      NestedRecords(t, ops[|ops| - 1]);
      match ops[|ops| - 1]
      case Add(fns) => if t.entries.Some? { AddQueued(t, fns); }
      case Remove(fns) => if t.entries.Some? { RemoveQueued(t, fns); }
      case _ =>
    }
  }

  /** With no queue there is only the one batch, and nothing more is asked for. */
  lemma {:induction false} DrainOnce(s: State)
    requires s.firing && s.queue.None?
    ensures var r := Drain(s);
      r.queue.None? && r.asked == s.asked && r.started == s.started && r.fired == s.fired && r.options == s.options
    decreases |s.script|, |s.todo|
  {
    if s.entries.Some? && s.todo != [] {
      if s.script != [] { NestedOnce(Called(s).(script := s.script[1..]), s.script[0].ops); }
      DrainOnce(CallFirst(s));
    }
  }

  lemma OuterOnce(s: State, op: Op)
    requires !s.firing && s.queue.None?
    ensures var r := Outer(s, op);
      && r.queue.None? && r.options == s.options && (s.fired ==> r.fired)
      && (if op.FireWith? && s.entries.Some? && !s.fired
          then r.asked == s.asked + [op.data] && r.started == s.started + [op.data] && r.fired
          else r.asked == s.asked && r.started == s.started)
  {
    match op
    case Add(fns) =>
      if s.entries.Some? {
        var r := AddAll(s.(todo := []), fns);
        AddQueued(s.(todo := []), fns);
        if r.memory.Some? { DrainOnce(Begin(r, r.todo, r.memory.value)); }
      }
    case Remove(fns) => if s.entries.Some? { RemoveQueued(s, fns); }
    case FireWith(d) =>
      if s.entries.Some? && !s.fired {
        DrainOnce(Begin(s.(asked := s.asked + [d], started := s.started + [d]), s.entries.value, d));
      }
    case _ =>
  }

  /** once: in every life the list is fired at most once. */
  lemma {:induction false} OnceLife(options: Options, script: seq<Behaviour>, ops: seq<Op>)
    requires options.once
    ensures FiredOnce(Life(options, script, ops))
  {
    if ops != [] {
      OnceLife(options, script, ops[..|ops| - 1]);
      OuterOnce(Life(options, script, ops[..|ops| - 1]), ops[|ops| - 1]);
    }
  }

  // Locking and disabling are for good.

  /** The same list, further on. */
  function Resume(s: State, ops: seq<Op>): (r: State)
    requires !s.firing
    ensures !r.firing
  {
    if ops == [] then s else Outer(Resume(s, ops[..|ops| - 1]), ops[|ops| - 1])
  }

  /** After a lock no fire is accepted any more, whatever is done to the list; a list with memory
      keeps its entries and its memory, so that `AddCalls` still applies to it. */
  lemma {:induction false} LockedForGood(s: State, ops: seq<Op>)
    requires !s.firing && (s.memory.Some? ==> s.fired)
    ensures var t, r := Outer(s, Lock), Resume(Outer(s, Lock), ops);
      && (s.memory.Some? ==> t == s.(queue := None))
      && r.asked == s.asked && r.started == s.started && r.queue.None? && (r.entries.None? || r.fired)
  {
    if ops != [] {
      LockedForGood(s, ops[..|ops| - 1]);
      var t := Resume(Outer(s, Lock), ops[..|ops| - 1]);
      OuterOnce(t, ops[|ops| - 1]);
    }
  }

  /** A disabled list never calls anything again. */
  lemma {:induction false} DisabledForGood(s: State, ops: seq<Op>)
    requires !s.firing
    ensures var r := Resume(Outer(s, Disable), ops);
      r.calls == s.calls && r.asked == s.asked && r.entries.None?
  {
    if ops != [] {
      DisabledForGood(s, ops[..|ops| - 1]);
    }
  }

  lemma {:induction false} ClosedInside(s: State, ops: seq<Op>, k: nat)
    requires s.firing && k < |ops|
    ensures ops[k].Disable? ==> NestedAll(s, ops).entries.None?
    ensures ops[k].Disable? || ops[k].Lock? ==> NestedAll(s, ops).queue.None?
  {
    var n := |ops| - 1;
    var t := NestedAll(s, ops[..n]);
    if k < n { ClosedInside(s, ops[..n], k); }
    match ops[n]
    case Add(fns) => if t.entries.Some? { AddQueued(t, fns); }
    case Remove(fns) => if t.entries.Some? { RemoveQueued(t, fns); }
    case _ =>
  }

  /** A callback that disables its list is the last one called, and one that locks it drops the
      fires that wait; no other is started or asked for after that callback. */
  lemma ClosingStops(s: State, k: nat)
    requires s.firing && s.entries.Some? && s.todo != [] && s.script != [] && k < |s.script[0].ops|
    ensures var op, r := s.script[0].ops[k], Drain(s);
      && (op.Disable? ==> r.calls == s.calls + [Call(s.todo[0], s.data)] && r.entries.None?)
      && (op.Disable? || op.Lock? ==> r.started == s.started && r.asked == CallFirst(s).asked && r.queue.None?)
  {
    var t := CallFirst(s);
    CallRecords(s);
    ClosedInside(Called(s).(script := s.script[1..]), s.script[0].ops, k);
    DrainCalls(s);
    if s.script[0].ops[k].Disable? || s.script[0].ops[k].Lock? {
      DrainOnce(t);
    }
  }

  // Every fire that is asked for is carried out, from wherever it is asked for.

  /** The fires among the operations, in order. */
  function FiresIn(ops: seq<Op>): seq<Data> {
    if ops == [] then [] else
      FiresIn(ops[..|ops| - 1]) + if ops[|ops| - 1].FireWith? then [ops[|ops| - 1].data] else []
  }

  /** The fires that callbacks ask for in the invocations `bs`. */
  function FiresOf(bs: seq<Behaviour>): seq<Data> {
    if bs == [] then [] else FiresIn(bs[0].ops) + FiresOf(bs[1..])
  }

  predicate NoClosing(ops: seq<Op>) {
    forall op :: op in ops ==> !op.Disable? && !op.Lock?
  }

  /** Neither this list nor, from here on, its callbacks close it. */
  predicate Open(s: State) {
    s.entries.Some? && s.queue.Some? && forall b :: b in s.script ==> NoClosing(b.ops)
  }

  lemma {:induction false} NestedAsks(s: State, ops: seq<Op>)
    requires s.firing && s.entries.Some? && s.queue.Some? && NoClosing(ops)
    ensures var r := NestedAll(s, ops);
      r.entries.Some? && r.queue.Some? && r.asked == s.asked + FiresIn(ops)
  {
    if ops == [] {
      assert s.asked + [] == s.asked;
    } else {
      var n := |ops| - 1;
      assert ops == ops[..n] + [ops[n]];
      NestedAsks(s, ops[..n]);
      var t := NestedAll(s, ops[..n]);
      match ops[n]
      case Add(fns) => AddQueued(t, fns);
      case Remove(fns) => RemoveQueued(t, fns);
      case FireWith(d) => assert t.asked + [d] == s.asked + (FiresIn(ops[..n]) + [d]);
      case _ =>
    }
  }

  /** The invocations that take place between `s` and `r`. */
  ghost predicate Took(s: State, r: State, n: nat) {
    n <= |s.script| && r.script == s.script[n..]
  }

  /** and what the callbacks ask for in them. */
  ghost predicate AskedOf(s: State, r: State, n: nat) {
    Took(s, r, n) && r.asked == s.asked + FiresOf(s.script[..n])
  }

  lemma CallAsks(s: State) returns (n: nat)
    requires s.firing && Open(s) && s.todo != []
    ensures var r := CallFirst(s);
      Open(r) && AskedOf(s, r, n)
  {
    if s.script == [] {
      n := 0;
    } else {
      n := 1;
      assert s.script[0] in s.script;
      NestedAsks(Called(s).(script := s.script[1..]), s.script[0].ops);
      assert s.script[..1] == [s.script[0]] && FiresOf([s.script[0]]) == FiresIn(s.script[0].ops) + FiresOf([]);
    }
  }

  lemma {:induction false} FiresConcat(a: seq<Behaviour>, b: seq<Behaviour>)
    ensures FiresOf(a + b) == FiresOf(a) + FiresOf(b)
  {
    if a == [] {
      assert a + b == b;
    } else {
      assert (a + b)[1..] == a[1..] + b;
      FiresConcat(a[1..], b);
    }
  }

  lemma TookOn(s: State, t: State, r: State, m: nat, n: nat)
    requires Took(s, t, m) && Took(t, r, n)
    ensures Took(s, r, m + n) && FiresOf(s.script[..m + n]) == FiresOf(s.script[..m]) + FiresOf(t.script[..n])
  {
    assert s.script[..m + n] == s.script[..m] + t.script[..n];
    FiresConcat(s.script[..m], t.script[..n]);
  }

  lemma AskedOn(s: State, t: State, r: State, m: nat, n: nat)
    requires AskedOf(s, t, m) && AskedOf(t, r, n)
    ensures AskedOf(s, r, m + n)
  {
    TookOn(s, t, r, m, n);
  }

  lemma NothingAsked(s: State, r: State)
    requires r.script == s.script && r.asked == s.asked
    ensures AskedOf(s, r, 0)
  {
  }

  lemma {:induction false} DrainAsks(s: State) returns (n: nat)
    requires s.firing && Open(s)
    ensures Open(Drain(s)) && AskedOf(s, Drain(s), n) && Drain(s).queue == Some([])
    decreases |s.script|, QueueLength(s), |s.todo|
  {
    if s.todo != [] {
      var m := CallAsks(s);
      var k := DrainAsks(CallFirst(s));
      AskedOn(s, CallFirst(s), Drain(s), m, k);
      n := m + k;
    } else if s.queue.value != [] {
      n := DrainAsks(NextFire(s));
    } else {
      n := 0;
      assert Drain(s) == AtRest(s);
      NothingAsked(s, AtRest(s));
    }
  }

  lemma OuterAsks(s: State, op: Op) returns (n: nat)
    requires !s.firing && Open(s) && NoClosing([op])
    ensures var r := Outer(s, op);
      && Took(s, r, n) && r.asked == s.asked + FiresIn([op]) + FiresOf(s.script[..n])
      && Open(r) && (s.queue == Some([]) ==> r.queue == Some([]))
  {
    assert op in [op];
    FiresInOne(op);
    n := 0;
    match op
    case Add(fns) =>
      var r := AddAll(s.(todo := []), fns);
      AddQueued(s.(todo := []), fns);
      if r.memory.Some? { n := DrainAsks(Begin(r, r.todo, r.memory.value)); }
    case Remove(fns) => RemoveQueued(s, fns);
    case FireWith(d) =>
      n := DrainAsks(Begin(s.(asked := s.asked + [d], started := s.started + [d]), s.entries.value, d));
    case _ =>
  }

  lemma FiresInOne(op: Op)
    ensures FiresIn([op]) == if op.FireWith? then [op.data] else []
  {
    assert [op][..0] == [];
  }

  lemma {:induction false} AskedMore(asked: seq<Data>, ops: seq<Op>, nested: seq<Data>, op: Op, more: seq<Data>, after: seq<Data>, all: seq<Data>)
    requires multiset(asked) == multiset(FiresIn(ops)) + multiset(nested)
    requires after == asked + FiresIn([op]) + more && all == nested + more
    ensures multiset(after) == multiset(FiresIn(ops + [op])) + multiset(all)
  {
    assert (ops + [op])[..|ops|] == ops;
    FiresInOne(op);
  }

  /** A list at rest that is never closed, `n` invocations on. */
  ghost predicate OpenAt(s: State, r: State, n: nat) {
    Open(r) && r.queue == Some([]) && Took(s, r, n)
  }

  lemma {:induction false} StillOpen(s: State, t: State, m: nat, op: Op) returns (n: nat, more: seq<Data>)
    requires OpenAt(s, t, m) && !t.firing && NoClosing([op])
    ensures var r := Outer(t, op);
      OpenAt(s, r, n) && r.asked == t.asked + FiresIn([op]) + more && FiresOf(s.script[..n]) == FiresOf(s.script[..m]) + more
  {
    var k := OuterAsks(t, op);
    TookOn(s, t, Outer(t, op), m, k);
    n, more := m + k, FiresOf(t.script[..k]);
  }

  lemma {:induction false} LifeAsks(options: Options, script: seq<Behaviour>, ops: seq<Op>) returns (n: nat)
    requires !options.once && NoClosing(ops) && forall b :: b in script ==> NoClosing(b.ops)
    ensures OpenAt(Initial(options, script), Life(options, script, ops), n)
    ensures multiset(Life(options, script, ops).asked) == multiset(FiresIn(ops)) + multiset(FiresOf(script[..n]))
  {
    if ops == [] {
      n := 0;
    } else {
      var k := |ops| - 1;
      var before, op := ops[..k], ops[k];
      assert ops == before + [op] && op in ops;
      var m := LifeAsks(options, script, before);
      var more;
      n, more := StillOpen(Initial(options, script), Life(options, script, before), m, op);
      AskedMore(Life(options, script, before).asked, before, FiresOf(script[..m]), op, more,
                Life(options, script, ops).asked, FiresOf(script[..n]));
    }
  }

  /** Of a list that is never closed and may fire again: all fires that were asked for, from
      outside and by the callbacks that were called, have been carried out, in the order they were
      asked for. */
  lemma EveryFireStarts(options: Options, script: seq<Behaviour>, ops: seq<Op>) returns (n: nat)
    requires !options.once && NoClosing(ops) && forall b :: b in script ==> NoClosing(b.ops)
    ensures var r := Life(options, script, ops);
      && r.started == r.asked && n <= |script| && r.script == script[n..]
      && multiset(r.asked) == multiset(FiresIn(ops)) + multiset(FiresOf(script[..n]))
  {
    n := LifeAsks(options, script, ops);
    EveryLife(options, script, ops);
    AllStarted(Life(options, script, ops));
  }

  lemma AllStarted(s: State)
    requires Rested(s) && s.queue == Some([])
    ensures s.started == s.asked
  {
  }
}
