/** Notifying a pending Deferred. */
module DeferredProgress {
  import opened Wrappers
  import opened Callbacks
  import opened CallbackRuns
  import opened Deferreds

  /** The progress list of a pending Deferred: everything that was registered is on it, and no
      fire is left waiting when none is under way. */
  ghost predicate Progress(s: State, fns: seq<Fn>) {
    && s.options == Options(false, true, false, false)
    && s.entries == Some(Number(fns)) && s.next == |fns| && s.queue.Some?
    && (!s.firing ==> s.queue == Some([]))
  }

  ghost predicate PendingInv(d: Deferred, fns: seq<Fn>) {
    && d.Shape() && d.status == Pending && Progress(d.lists[2], fns)
    && !d.lists[0].firing && !d.lists[1].firing
  }

  lemma NumberMore(fns: seq<Fn>, more: seq<Fn>)
    ensures Number(fns) + Numbered(more, |fns|) == Number(fns + more)
  {
  }

  lemma {:induction false} AdvanceKeeps(d: Deferred, fns: seq<Fn>)
    requires PendingInv(d, fns) && d.frames != [] && d.Top() == 2
    ensures PendingInv(Advance(d), fns)
    decreases QueueLength(d.lists[2])
  {
    var s := d.lists[2];
    if s.todo == [] && s.queue.value != [] {
      AdvanceKeeps(d.Put(2, NextFire(s)), fns);
    }
  }

  lemma ProgressIsTop(d: Deferred, fns: seq<Fn>)
    requires PendingInv(d, fns) && d.frames != []
    ensures d.Top() == 2 && d.frames == [2]
  {
    assert d.frames[|d.frames| - 1] in d.frames && d.frames[0] in d.frames;
    assert d.frames[0] == 2 && d.frames[|d.frames| - 1] == 2;
  }

  lemma ListenKeeps(d: Deferred, fns: seq<Fn>, more: seq<nat>)
    requires PendingInv(d, fns)
    ensures PendingInv(Step(d, Listen(2, more)), fns + User(more))
  {
    var s := d.lists[2];
    NumberMore(fns, User(more));
    if s.firing {
      AddAllIsAppend(s, User(more));
    } else {
      var r := AddAll(s.(todo := []), User(more));
      AddAllIsAppend(s.(todo := []), User(more));
      if r.memory.Some? {
        AdvanceKeeps(d.Push(2, Begin(r, r.todo, r.memory.value)), fns + User(more));
      }
    }
  }

  lemma NotifyKeeps(d: Deferred, fns: seq<Fn>, data: Data)
    requires PendingInv(d, fns)
    ensures PendingInv(Step(d, Fire(2, data)), fns)
  {
    var s := d.lists[2];
    if !s.firing {
      AdvanceKeeps(d.Push(2, Begin(s.(asked := s.asked + [data], started := s.started + [data]), s.entries.value, data)), fns);
    }
  }

  /** As long as nothing was resolved or rejected, the progress list has all its listeners. */
  lemma {:induction false} PendingHolds(events: seq<Event>)
    requires Outcome(events).None?
    ensures PendingInv(Run(events), Heard(2, events))
  {
    InvHolds(events);
    if events == [] {
      assert Number([]) == [];
    } else {
      var before, e := events[..|events| - 1], events[|events| - 1];
      var d, fns := Run(before), Heard(2, before);
      PendingHolds(before);
      InvHolds(before);
      assert fns + [] == fns;
      match e
      case Return =>
        if d.frames != [] {
          ProgressIsTop(d, fns);
          AdvanceKeeps(d, fns);
        }
      case Listen(i, more) => if i == 2 { ListenKeeps(d, fns, more); } else { OtherListens(d, fns, i, more, before); }
      case Fire(i, data) => if i == 2 { NotifyKeeps(d, fns, data); }
    }
  }

  lemma OtherListens(d: Deferred, fns: seq<Fn>, i: nat, more: seq<nat>, before: seq<Event>)
    requires PendingInv(d, fns) && i != 2 && d == Run(before) && Outcome(before).None?
    ensures PendingInv(Step(d, Listen(i, more)), fns)
  {
    InvHolds(before);
    if i < 2 {
      ListenFresh(d.lists[i], if i == 0 then Heard(0, before) else Heard(1, before), more);
    }
  }

  /** Control comes back `n` times. */
  function Returned(d: Deferred, n: nat): (r: Deferred)
    requires d.Shape()
    ensures r.Shape()
  {
    if n == 0 then d else Step(Returned(d, n - 1), Return)
  }

  /** A notify that was accepted has called `k` listeners and has the others before it. */
  ghost predicate Telling(d: Deferred, s: State, fns: seq<Fn>, data: Data, k: nat) {
    && d.Shape() && d.frames == [2] && k <= |fns|
    && var t := d.lists[2];
       && t.entries == s.entries && t.queue == Some([]) && t.data == data
       && t.todo == Number(fns)[k..] && t.calls == s.calls + CallsTo(fns, data)[..k]
  }

  lemma TellNext(d: Deferred, s: State, fns: seq<Fn>, data: Data, k: nat)
    requires Telling(d, s, fns, data, k) && s.entries == Some(Number(fns)) && k < |fns|
    ensures Telling(Advance(d), s, fns, data, k + 1)
  {
    assert d.Top() == 2;
    assert Number(fns)[k..][1..] == Number(fns)[k + 1..] && Number(fns)[k..][0] == Entry(fns[k], k);
    assert CallsTo(fns, data)[..k + 1] == CallsTo(fns, data)[..k] + [Call(Entry(fns[k], k), data)];
    assert Advance(d) == d.Put(2, Called(d.lists[2]));
  }

  lemma TellEnds(d: Deferred, s: State, fns: seq<Fn>, data: Data)
    requires Telling(d, s, fns, data, |fns|) && s.entries == Some(Number(fns))
    ensures Advance(d).frames == [] && Advance(d).lists[2].calls == s.calls + CallsTo(fns, data)
  {
    assert d.Top() == 2;
    assert CallsTo(fns, data)[..|fns|] == CallsTo(fns, data);
    assert Advance(d) == d.Pop(AtRest(d.lists[2]));
  }

  /** `n` of the listeners have returned, and the next one is being called if there is one. */
  ghost predicate Told(d: Deferred, s: State, fns: seq<Fn>, data: Data, n: nat) {
    if n < |fns| then Telling(d, s, fns, data, n + 1)
    else n == |fns| && d.Shape() && d.frames == [] && d.lists[2].calls == s.calls + CallsTo(fns, data)
  }

  lemma {:induction false} TellFirst(d: Deferred, fns: seq<Fn>, data: Data)
    requires PendingInv(d, fns) && d.frames == []
    ensures Told(Step(d, Fire(2, data)), d.lists[2], fns, data, 0)
  {
    var s := d.lists[2];
    var t := Begin(s.(asked := s.asked + [data], started := s.started + [data]), s.entries.value, data);
    var e := d.Push(2, t);
    assert CallsTo(fns, data)[..0] == [] && Number(fns)[0..] == Number(fns) && s.calls + [] == s.calls;
    assert Step(d, Fire(2, data)) == Advance(e);
    assert Telling(e, s, fns, data, 0);
    if fns == [] { TellEnds(e, s, fns, data); } else { TellNext(e, s, fns, data, 0); }
  }

  lemma {:induction false} OneMoreTold(d: Deferred, s: State, fns: seq<Fn>, data: Data, n: nat)
    requires Told(d, s, fns, data, n) && s.entries == Some(Number(fns)) && n < |fns|
    ensures Told(Step(d, Return), s, fns, data, n + 1)
  {
    assert Step(d, Return) == Advance(d);
    if n + 1 < |fns| { TellNext(d, s, fns, data, n + 1); } else { TellEnds(d, s, fns, data); }
  }

  lemma {:induction false} AllTold(d: Deferred, s: State, fns: seq<Fn>, data: Data, n: nat)
    requires d.Shape() && Told(d, s, fns, data, 0) && s.entries == Some(Number(fns)) && n <= |fns|
    ensures Told(Returned(d, n), s, fns, data, n)
  {
    if n > 0 {
      AllTold(d, s, fns, data, n - 1);
      OneMoreTold(Returned(d, n - 1), s, fns, data, n - 1);
    }
  }

  /** While a Deferred is pending and no callback is running, a notify calls every progress
      listener that was registered so far, in order and with the data it was given, one after
      another as control comes back. */
  lemma EveryoneIsTold(events: seq<Event>, data: Data, n: nat)
    requires Outcome(events).None? && Run(events).frames == [] && n <= |Heard(2, events)|
    ensures Told(Returned(Step(Run(events), Fire(2, data)), n), Run(events).lists[2], Heard(2, events), data, n)
  {
    PendingHolds(events);
    TellFirst(Run(events), Heard(2, events), data);
    AllTold(Step(Run(events), Fire(2, data)), Run(events).lists[2], Heard(2, events), data, n);
  }
}
