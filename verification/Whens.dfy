/** jQuery.when: one promise out of many values and promises, by counting. */
module Whens {
  import opened Wrappers

  /** What a callback stores for an argument: nothing, the one argument, or the list of several.
      `Placeholder` is the promise that stands in the argument list until it resolves. */
  datatype Value = Undefined | Single(v: nat) | Several(vs: seq<nat>) | Placeholder

  /** A subordinate promise settles at most once (see Deferreds.StateIsFinal). */
  datatype Status = Unsettled | Done(args: seq<nat>) | Failed(args: seq<nat>)

  /** An argument of `when`: a plain value, or a promise as it stands when `when` is called. */
  datatype Argument = Plain(v: nat) | Promise(status: Status)

  datatype Event = Resolve(which: nat, args: seq<nat>) | Reject(which: nat, args: seq<nat>) | Notify(which: nat, args: seq<nat>)

  datatype Master = Pending | Resolved(values: seq<Value>) | Rejected(args: seq<nat>)

  function Stored(args: seq<nat>): Value {
    if |args| > 1 then Several(args) else if |args| == 1 then Single(args[0]) else Undefined
  }

  function ArgsIn(v: Value): seq<nat> {
    match v
    case Single(x) => [x]
    case Several(vs) => vs
    case _ => []
  }

  /** What is stored says what the callback was called with: one argument is stored as a plain
      value would be, several as their list, and none as undefined. */
  lemma StoredSays(args: seq<nat>)
    ensures ArgsIn(Stored(args)) == args
    ensures match Stored(args)
      case Undefined => args == []
      case Single(_) => |args| == 1
      case Several(_) => |args| > 1
      case Placeholder => false
  {
  }

  // The specification, read off the arguments and what happened to them.

  /** How argument `i` stands after the events: the first settlement is the one that counts. */
  function StatusAfter(a: seq<Argument>, events: seq<Event>, i: nat): Status
    requires i < |a|
  {
    if events == [] then
      if a[i].Plain? then Done([a[i].v]) else a[i].status
    else
      var s := StatusAfter(a, events[..|events| - 1], i);
      match events[|events| - 1]
      case Resolve(k, args) => if k == i && s.Unsettled? then Done(args) else s
      case Reject(k, args) => if k == i && s.Unsettled? then Failed(args) else s
      case Notify(_, _) => s
  }

  function FirstFailed(a: seq<Argument>): Option<seq<nat>> {
    if a == [] then None else
      var f := FirstFailed(a[..|a| - 1]);
      var x := a[|a| - 1];
      if f.None? && x.Promise? && x.status.Failed? then Some(x.status.args) else f
  }

  /** The arguments of the first rejection there was. */
  function FirstRejection(a: seq<Argument>, events: seq<Event>): Option<seq<nat>> {
    if events == [] then FirstFailed(a) else
      var before := events[..|events| - 1];
      var f := FirstRejection(a, before);
      var e := events[|events| - 1];
      if f.None? && e.Reject? && e.which < |a| && StatusAfter(a, before, e.which).Unsettled? then Some(e.args) else f
  }

  ghost predicate AllDone(a: seq<Argument>, events: seq<Event>) {
    DoneBefore(a, events, |a|)
  }

  ghost predicate DoneBefore(a: seq<Argument>, events: seq<Event>, n: nat)
    requires n <= |a|
  {
    forall i: nat :: i < n ==> StatusAfter(a, events, i).Done?
  }

  /** The values of all arguments, in argument order. */
  function Values(a: seq<Argument>, events: seq<Event>): seq<Value> {
    seq(|a|, i requires 0 <= i < |a| =>
      var s := StatusAfter(a, events, i); if s.Done? then Stored(s.args) else Placeholder)
  }

  /** Rejected on the first rejection, resolved once everything is, pending until then. */
  ghost predicate Expected(a: seq<Argument>, events: seq<Event>, m: Master) {
    match FirstRejection(a, events)
    case Some(args) => m == Rejected(args)
    case None => if AllDone(a, events) then m == Resolved(Values(a, events)) else m == Pending
  }

  /** The last progress value an argument has reported. */
  function Reported(a: seq<Argument>, events: seq<Event>, i: nat): Value
    requires i < |a|
  {
    if events == [] then Undefined else
      var before := events[..|events| - 1];
      var e := events[|events| - 1];
      if e.Notify? && e.which == i && StatusAfter(a, before, i).Unsettled? then Stored(e.args) else Reported(a, before, i)
  }

  function Reports(a: seq<Argument>, events: seq<Event>): seq<Value> {
    seq(|a|, i requires 0 <= i < |a| => Reported(a, events, i))
  }

  /** What the master's progress listeners hear: every report of a live argument made before
      the first rejection, together with the latest reports of all others. */
  function Notifications(a: seq<Argument>, events: seq<Event>): seq<seq<Value>> {
    if events == [] then [] else
      var before := events[..|events| - 1];
      var e := events[|events| - 1];
      Notifications(a, before) +
        if e.Notify? && e.which < |a| && StatusAfter(a, before, e.which).Unsettled? && FirstRejection(a, before).None?
        then [Reports(a, events)] else []
  }

  function Outstanding(a: seq<Argument>, events: seq<Event>, n: nat): nat
    requires n <= |a|
  {
    if n == 0 then 0 else Outstanding(a, events, n - 1) + (if StatusAfter(a, events, n - 1).Done? then 0 else 1)
  }

  lemma {:induction false} NoneOutstanding(a: seq<Argument>, events: seq<Event>, n: nat)
    requires n <= |a|
    ensures Outstanding(a, events, n) == 0 <==> DoneBefore(a, events, n)
  {
    if n > 0 {
      NoneOutstanding(a, events, n - 1);
      assert DoneBefore(a, events, n) <==> DoneBefore(a, events, n - 1) && StatusAfter(a, events, n - 1).Done?;
    }
  }

  /** Resolving one unsettled argument leaves one fewer outstanding; nothing else changes the count. */
  lemma {:induction false} OutstandingAfter(a: seq<Argument>, events: seq<Event>, e: Event, n: nat)
    requires n <= |a|
    ensures Outstanding(a, events + [e], n) == Outstanding(a, events, n) -
      (if e.Resolve? && e.which < n && StatusAfter(a, events, e.which).Unsettled? then 1 else 0)
  {
    if n > 0 {
      OutstandingAfter(a, events, e, n - 1);
      assert (events + [e])[..|events|] == events;
    }
  }

  /** Once an argument has failed, they are never all done. */
  lemma {:induction false} RejectedForGood(a: seq<Argument>, events: seq<Event>)
    requires FirstRejection(a, events).Some?
    ensures exists i :: 0 <= i < |a| && StatusAfter(a, events, i).Failed?
  {
    if events == [] {
      assert a[..|a|] == a;
      FailedArgument(a, |a|);
    } else {
      var before, e := events[..|events| - 1], events[|events| - 1];
      if FirstRejection(a, before).Some? {
        RejectedForGood(a, before);
        var i :| 0 <= i < |a| && StatusAfter(a, before, i).Failed?;
        assert StatusAfter(a, events, i).Failed?;
      } else {
        assert StatusAfter(a, events, e.which).Failed?;
      }
    }
  }

  lemma {:induction false} FailedArgument(a: seq<Argument>, n: nat)
    requires n <= |a| && FirstFailed(a[..n]).Some?
    ensures exists i :: 0 <= i < |a| && StatusAfter(a, [], i).Failed?
  {
    if FirstFailed(a[..n - 1]).Some? {
      FailedArgument(a, n - 1);
    } else {
      assert a[..n][..n - 1] == a[..n - 1];
      assert StatusAfter(a, [], n - 1).Failed?;
    }
  }

  /** The converse: as long as nothing was rejected, no argument has failed. */
  lemma {:induction false} NothingFailed(a: seq<Argument>, events: seq<Event>, i: nat)
    requires i < |a| && FirstRejection(a, events).None?
    ensures !StatusAfter(a, events, i).Failed?
  {
    if events == [] {
      assert a[..|a|] == a;
      NoFailedArgument(a, |a|, i);
    } else {
      NothingFailed(a, events[..|events| - 1], i);
    }
  }

  lemma {:induction false} NoFailedArgument(a: seq<Argument>, n: nat, i: nat)
    requires i < n <= |a| && FirstFailed(a[..n]).None?
    ensures !StatusAfter(a, [], i).Failed?
  {
    assert a[..n][..n - 1] == a[..n - 1];
    if i < n - 1 { NoFailedArgument(a, n - 1, i); }
  }

  /** Being all done and having failed exclude each other, and what is done stays done. */
  lemma Exclusive(a: seq<Argument>, events: seq<Event>)
    ensures AllDone(a, events) <==> Outstanding(a, events, |a|) == 0
    ensures AllDone(a, events) ==> FirstRejection(a, events).None?
  {
    NoneOutstanding(a, events, |a|);
    if FirstRejection(a, events).Some? {
      RejectedForGood(a, events);
    }
  }

  lemma AfterEvent(a: seq<Argument>, events: seq<Event>, e: Event, i: nat)
    requires i < |a|
    ensures StatusAfter(a, events + [e], i) == if StatusAfter(a, events, i).Unsettled? && !e.Notify? && e.which == i
      then (if e.Resolve? then Done(e.args) else Failed(e.args)) else StatusAfter(a, events, i)
  {
    assert (events + [e])[..|events|] == events;
  }

  lemma RejectionAfter(a: seq<Argument>, events: seq<Event>, e: Event)
    ensures FirstRejection(a, events + [e]) ==
      if FirstRejection(a, events).None? && e.Reject? && e.which < |a| && StatusAfter(a, events, e.which).Unsettled? then Some(e.args)
      else FirstRejection(a, events)
  {
    assert (events + [e])[..|events|] == events;
  }

  lemma ReportsAfter(a: seq<Argument>, events: seq<Event>, e: Event)
    ensures forall i: nat :: i < |a| ==> (Reported(a, events + [e], i) ==
      if e.Notify? && e.which == i && StatusAfter(a, events, i).Unsettled? then Stored(e.args) else Reported(a, events, i))
    ensures Notifications(a, events + [e]) == Notifications(a, events) +
      if e.Notify? && e.which < |a| && StatusAfter(a, events, e.which).Unsettled? && FirstRejection(a, events).None?
      then [Reports(a, events + [e])] else []
  {
    assert (events + [e])[..|events|] == events;
  }

  /** Adds listeners to the promises and treats the other arguments as resolved. */
  method Start(a: seq<Argument>) returns (master: Master, remaining: int, values: seq<Value>)
    requires |a| == 1 ==> a[0].Plain?
    ensures Expected(a, [], master) && remaining == Outstanding(a, [], |a|) && values == Values(a, [])
  {
    var length := |a|;
    remaining := if length != 1 then length else 0;
    master := Pending;
    values := seq(length, i requires 0 <= i < |a| => if a[i].Plain? then Single(a[i].v) else Placeholder);
    if length > 1 {
      for i := 0 to length
        invariant |values| == length
        invariant remaining == length - i + Outstanding(a, [], i)
        invariant forall k :: 0 <= k < i ==> values[k] == Values(a, [])[k]
        invariant forall k :: i <= k < length ==> values[k] == (if a[k].Plain? then Single(a[k].v) else Placeholder)
        invariant match FirstFailed(a[..i])
          case Some(args) => master == Rejected(args)
          case None => master == Pending || (i == length && remaining == 0 && master == Resolved(values))
      {
        assert a[..i + 1][..i] == a[..i];
        if a[i].Promise? {
          match a[i].status {
            case Done(args) =>
              values := values[i := Stored(args)];
              remaining := remaining - 1;
              if remaining == 0 && master.Pending? {
                master := Resolved(values);
              }
            case Failed(args) =>
              if master.Pending? {
                master := Rejected(args);
              }
            case Unsettled =>
          }
        } else {
          remaining := remaining - 1;
        }
      }
    }
    assert a[..length] == a;
    assert length <= 1 ==> FirstFailed(a).None?;
    assert length == 1 ==> Outstanding(a, [], 0) == 0;
    if remaining == 0 && master.Pending? {
      master := Resolved(values);
    }
    Exclusive(a, []);
  }

  /** What the closure's variables amount to after the events. */
  ghost predicate Tracks(a: seq<Argument>, events: seq<Event>, k: Closure) {
    && |k.status| == |a|
    && (forall i :: 0 <= i < |a| ==> k.status[i] == StatusAfter(a, events, i))
    && k.values == Values(a, events) && k.progress == Reports(a, events)
    && k.remaining == Outstanding(a, events, |a|)
    && Expected(a, events, k.master) && k.notified == Notifications(a, events)
  }

  /** The variables of one call of `when`; `status` is the state of the promises it was given. */
  datatype Closure = Closure(master: Master, remaining: int, status: seq<Status>, values: seq<Value>, progress: seq<Value>,
                             notified: seq<seq<Value>>)

  /** What one event at a live promise makes the update functions do. */
  method Update(a: seq<Argument>, ghost events: seq<Event>, k: Closure, e: Event) returns (r: Closure)
    requires Tracks(a, events, k) && e.which < |a| && k.status[e.which].Unsettled?
    ensures Tracks(a, events + [e], r)
  {
    OutstandingAfter(a, events, e, |a|);
    RejectionAfter(a, events, e);
    ReportsAfter(a, events, e);
    Exclusive(a, events);
    Exclusive(a, events + [e]);
    forall i | 0 <= i < |a| { AfterEvent(a, events, e, i); }
    match e {
      case Resolve(i, args) =>
        r := k.(status := k.status[i := Done(args)], values := k.values[i := Stored(args)], remaining := k.remaining - 1);
        assert r.values == Values(a, events + [e]);
        if r.remaining == 0 && r.master.Pending? {
          r := r.(master := Resolved(r.values));
        }
      case Reject(i, args) =>
        r := k.(status := k.status[i := Failed(args)]);
        if r.master.Pending? {
          r := r.(master := Rejected(args));
        }
      case Notify(i, args) =>
        r := k.(progress := k.progress[i := Stored(args)]);
        assert r.progress == Reports(a, events + [e]);
        if r.master.Pending? {
          r := r.(notified := r.notified + [r.progress]);
        }
    }
    assert r.values == Values(a, events + [e]);
    assert r.progress == Reports(a, events + [e]);
  }

  lemma DeadEvent(a: seq<Argument>, events: seq<Event>, k: Closure, e: Event)
    requires Tracks(a, events, k) && !(e.which < |a| && k.status[e.which].Unsettled?)
    ensures Tracks(a, events + [e], k)
  {
    OutstandingAfter(a, events, e, |a|);
    RejectionAfter(a, events, e);
    ReportsAfter(a, events, e);
    Exclusive(a, events);
    Exclusive(a, events + [e]);
    forall i | 0 <= i < |a| { AfterEvent(a, events, e, i); }
    assert Values(a, events + [e]) == Values(a, events);
    assert Reports(a, events + [e]) == Reports(a, events);
  }

  /** `when` over any number of arguments but a single promise, through any run of events.
      The master promise ignores whatever reaches it after it has settled. */
  method When(a: seq<Argument>, events: seq<Event>) returns (master: Master, remaining: int, notified: seq<seq<Value>>)
    requires |a| == 1 ==> a[0].Plain?
    ensures Expected(a, events, master)
    ensures remaining == Outstanding(a, events, |a|)
    ensures master.Pending? ==> remaining > 0
    ensures notified == Notifications(a, events)
  {
    var values;
    master, remaining, values := Start(a);
    var k := Closure(master, remaining, seq(|a|, i requires 0 <= i < |a| => StatusAfter(a, [], i)), values, seq(|a|, _ => Undefined), []);
    assert k.progress == Reports(a, []);
    assert events[..0] == [];
    for j := 0 to |events|
      invariant Tracks(a, events[..j], k)
    {
      assert events[..j + 1] == events[..j] + [events[j]];
      if events[j].which < |a| && k.status[events[j].which].Unsettled? {
        k := Update(a, events[..j], k, events[j]);
      } else {
        DeadEvent(a, events[..j], k, events[j]);
      }
    }
    assert events[..|events|] == events;
    Exclusive(a, events);
    return k.master, k.remaining, k.notified;
  }

  /** The master settles once: whatever happens later, its outcome stays as it is. */
  lemma {:induction false} MasterIsFinal(a: seq<Argument>, events: seq<Event>, more: seq<Event>, m: Master)
    requires Expected(a, events, m) && !m.Pending?
    ensures Expected(a, events + more, m)
  {
    if more == [] {
      assert events + more == events;
    } else {
      var k := |more| - 1;
      var before, e := events + more[..k], more[k];
      MasterIsFinal(a, events, more[..k], m);
      assert events + more == before + [e];
      RejectionAfter(a, before, e);
      Exclusive(a, before);
      Exclusive(a, before + [e]);
      forall i | 0 <= i < |a| { AfterEvent(a, before, e, i); }
      if m.Resolved? {
        assert AllDone(a, before) && AllDone(a, before + [e]);
        assert Values(a, before + [e]) == Values(a, before);
      }
    }
  }
}
