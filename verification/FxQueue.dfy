// The fx queue of one element: steps run one at a time, each started when its predecessor calls `next`.
module FxQueue {
  import opened Wrappers

  ////////// What the queue is for, without a queue: everything pushed so far, and how many of it have finished

  datatype Entry<W> = Started(work: W) | Nexted | Emptied

  // `stray` remembers that `next` was called when no step was under way.
  datatype Spec<W> = Spec(pushed: seq<W>, finished: nat, log: seq<Entry<W>>, stray: bool)

  ghost predicate Sane<W>(s: Spec<W>) {
    s.finished <= |s.pushed|
  }

  predicate Idle<W>(s: Spec<W>) {
    s.finished == |s.pushed|
  }

  // Everything behind the one step that is under way.
  function Waiting<W>(s: Spec<W>): seq<W>
    requires Sane(s)
  {
    if Idle(s) then [] else s.pushed[s.finished + 1..]
  }

  function OnPush<W>(s: Spec<W>, work: W): Spec<W>
    requires Sane(s)
  {
    s.(pushed := s.pushed + [work], log := if Idle(s) then s.log + [Started(work)] else s.log)
  }

  function OnNext<W>(s: Spec<W>): Spec<W>
    requires Sane(s)
  {
    if Idle(s) then s.(log := s.log + [Nexted] + [Emptied], stray := true)
    else
      var last := if Waiting(s) == [] then Emptied else Started(Waiting(s)[0]);
      s.(finished := s.finished + 1, log := s.log + [Nexted] + [last])
  }

  function Starts<W>(log: seq<Entry<W>>): seq<W> {
    if log == [] then []
    else
      var last := |log| - 1;
      Starts(log[..last]) + if log[last].Started? then [log[last].work] else []
  }

  function Nexts<W>(log: seq<Entry<W>>): nat {
    if log == [] then 0 else Nexts(log[..|log| - 1]) + if log[|log| - 1].Nexted? then 1 else 0
  }

  // What may come next: a start comes first of all, or right after a predecessor called `next`, or after the queue
  // ran empty; a `next` comes right after a start, and the queue runs empty only right after a `next`.
  ghost predicate Follows<W>(log: seq<Entry<W>>, e: Entry<W>) {
    match e
    case Started(_) => log == [] || !log[|log| - 1].Started?
    case Nexted => log != [] && log[|log| - 1].Started?
    case Emptied => log != [] && log[|log| - 1].Nexted?
  }

  ghost predicate InTurn<W>(log: seq<Entry<W>>) {
    forall i :: 0 <= i < |log| ==> Follows(log[..i], log[i])
  }

  ghost predicate Correct<W>(s: Spec<W>) {
    && Sane(s)
       // Steps started in the order they were pushed, each once, and the ones not started are waiting.
    && s.pushed == Starts(s.log) + Waiting(s)
       // Without a stray call, `next` was called once per finished step, and the log is in turn; its last word is
       // that the queue is empty exactly when everything pushed has finished.
    && (!s.stray ==>
          && Nexts(s.log) == s.finished
          && InTurn(s.log)
          && (if Idle(s) then s.log == [] || s.log[|s.log| - 1].Emptied?
              else s.log != [] && s.log[|s.log| - 1].Started?))
  }

  lemma LogAdd<W>(log: seq<Entry<W>>, e: Entry<W>)
    ensures Starts(log + [e]) == Starts(log) + if e.Started? then [e.work] else []
    ensures Nexts(log + [e]) == Nexts(log) + if e.Nexted? then 1 else 0
    ensures InTurn(log) && Follows(log, e) ==> InTurn(log + [e])
  {
    assert (log + [e])[..|log|] == log;
    if InTurn(log) && Follows(log, e) {
      forall i | 0 <= i < |log + [e]| ensures Follows((log + [e])[..i], (log + [e])[i]) {
        assert (log + [e])[..i] == log[..i];
        if i < |log| {
          assert Follows(log[..i], log[i]);
        }
      }
    }
  }

  lemma PushIsCorrect<W>(s: Spec<W>, work: W)
    requires Correct(s)
    ensures Correct(OnPush(s, work))
    ensures Waiting(OnPush(s, work)) == if Idle(s) then [] else Waiting(s) + [work]
  {
    LogAdd(s.log, Started(work));
    if !Idle(s) {
      assert Waiting(OnPush(s, work)) == Waiting(s) + [work];
      TailMoves(Starts(s.log), Waiting(s), work);
    }
  }

  lemma TailMoves<W>(a: seq<W>, b: seq<W>, w: W)
    ensures a + (b + [w]) == a + b + [w]
  {
  }

  lemma LogNext<W>(log: seq<Entry<W>>, e: Entry<W>)
    requires !e.Nexted?
    ensures var next := log + [Nexted] + [e];
      && Starts(next) == Starts(log) + (if e.Started? then [e.work] else [])
      && Nexts(next) == Nexts(log) + 1
      && (InTurn(log) && log != [] && log[|log| - 1].Started? ==> InTurn(next))
      && next[|next| - 1] == e
  {
    LogAdd(log, Nexted);
    LogAdd(log + [Nexted], e);
  }

  lemma HeadMoves<W>(a: seq<W>, b: seq<W>)
    requires b != []
    ensures a + b == a + [b[0]] + b[1..]
  {
  }

  lemma NextWaiting<W>(s: Spec<W>)
    requires Correct(s)
    ensures Waiting(OnNext(s)) == if Waiting(s) == [] then [] else Waiting(s)[1..]
  {
  }

  lemma NextEmpties<W>(s: Spec<W>)
    requires Correct(s) && Waiting(s) == []
    ensures Correct(OnNext(s))
  {
    LogNext(s.log, Emptied);
    NextWaiting(s);
  }

  lemma NextStarts<W>(s: Spec<W>)
    requires Correct(s) && Waiting(s) != []
    ensures Correct(OnNext(s))
  {
    LogNext(s.log, Started(Waiting(s)[0]));
    NextWaiting(s);
    HeadMoves(Starts(s.log), Waiting(s));
  }

  lemma NextIsCorrect<W>(s: Spec<W>)
    requires Correct(s)
    ensures Correct(OnNext(s))
    ensures Waiting(OnNext(s)) == if Waiting(s) == [] then [] else Waiting(s)[1..]
  {
    NextWaiting(s);
    if Waiting(s) == [] {
      NextEmpties(s);
    } else {
      NextStarts(s);
    }
  }

  ////////// Steps that push and call `next` themselves

  // A step, with the calls it makes before it returns. Whatever else it calls later arrives from outside.
  datatype Work = Work(id: nat, acts: seq<Act>)
  datatype Act = Push(work: Work) | Next

  function Size(acts: seq<Act>): nat {
    if acts == [] then 0 else ActSize(acts[0]) + Size(acts[1..])
  }

  function ActSize(act: Act): nat {
    match act
    case Push(work) => 1 + WorkSize(work)
    case Next => 1
  }

  function WorkSize(work: Work): nat {
    match work
    case Work(_, acts) => 1 + Size(acts)
  }

  function QueueSize(works: seq<Work>): nat {
    if works == [] then 0 else WorkSize(works[0]) + QueueSize(works[1..])
  }

  lemma {:induction false} QueueSizeAdd(works: seq<Work>, work: Work)
    ensures QueueSize(works + [work]) == QueueSize(works) + WorkSize(work)
  {
    if works != [] {
      QueueSizeAdd(works[1..], work);
      assert (works + [work])[1..] == works[1..] + [work];
    }
  }

  lemma {:induction false} SizeOfConcat(a: seq<Act>, b: seq<Act>)
    ensures Size(a + b) == Size(a) + Size(b)
  {
    if a == [] {
      assert a + b == b;
    } else {
      SizeOfConcat(a[1..], b);
      assert (a + b)[1..] == a[1..] + b;
    }
  }

  function React(s: Spec<Work>, act: Act): Spec<Work>
    requires Sane(s)
  {
    if act.Push? then OnPush(s, act.work) else OnNext(s)
  }

  // The calls of the step that a call started, if it started one.
  function Follow(s: Spec<Work>, act: Act): seq<Act>
    requires Sane(s)
  {
    if act.Push? then if Idle(s) then act.work.acts else []
    else if Waiting(s) != [] then Waiting(s)[0].acts
    else []
  }

  function Load(s: Spec<Work>): nat
    requires Sane(s)
  {
    QueueSize(Waiting(s))
  }

  lemma ReactShrinks(s: Spec<Work>, act: Act)
    requires Sane(s)
    ensures Sane(React(s, act))
    ensures Load(React(s, act)) + Size(Follow(s, act)) < Load(s) + ActSize(act)
  {
    var t := React(s, act);
    if act.Push? && !Idle(s) {
      assert Waiting(t) == Waiting(s) + [act.work];
      QueueSizeAdd(Waiting(s), act.work);
    } else if act.Next? && Waiting(s) != [] {
      assert Waiting(t) == Waiting(s)[1..];
    }
  }

  lemma StillWaiting(s: Spec<Work>, act: Act)
    requires Sane(s) && (act.Push? ==> Idle(s))
    ensures Waiting(React(s, act)) == if act.Push? || Waiting(s) == [] then [] else Waiting(s)[1..]
  {
  }

  // Calls made one after another; those of a step that starts come before the ones that are still to be made.
  function Play(s: Spec<Work>, agenda: seq<Act>): Spec<Work>
    requires Sane(s)
    decreases Load(s) + Size(agenda)
  {
    if agenda == [] then s
    else
      ReactShrinks(s, agenda[0]);
      SizeOfConcat(Follow(s, agenda[0]), agenda[1..]);
      Play(React(s, agenda[0]), Follow(s, agenda[0]) + agenda[1..])
  }

  lemma {:induction false} PlayShrinks(s: Spec<Work>, agenda: seq<Act>)
    requires Sane(s)
    ensures Sane(Play(s, agenda))
    ensures Load(Play(s, agenda)) <= Load(s) + Size(agenda)
    decreases Load(s) + Size(agenda)
  {
    if agenda != [] {
      ReactShrinks(s, agenda[0]);
      SizeOfConcat(Follow(s, agenda[0]), agenda[1..]);
      PlayShrinks(React(s, agenda[0]), Follow(s, agenda[0]) + agenda[1..]);
    }
  }

  lemma Regroup<T>(f: seq<T>, a: seq<T>, b: seq<T>)
    requires a != []
    ensures (a + b)[0] == a[0] && f + (a + b)[1..] == f + a[1..] + b
  {
  }

  // A call that returns before the next one is made leaves the same state as the two in a row.
  lemma {:induction false} PlayConcat(s: Spec<Work>, a: seq<Act>, b: seq<Act>)
    requires Sane(s)
    ensures Sane(Play(s, a)) && Play(s, a + b) == Play(Play(s, a), b)
    decreases Load(s) + Size(a)
  {
    PlayShrinks(s, a);
    if a == [] {
      assert a + b == b;
    } else {
      var t, f := React(s, a[0]), Follow(s, a[0]);
      ReactShrinks(s, a[0]);
      SizeOfConcat(f, a[1..]);
      PlayConcat(t, f + a[1..], b);
      Regroup(f, a, b);
    }
  }

  // One more of the calls, and room for it.
  lemma PlayNext(s: Spec<Work>, acts: seq<Act>, i: nat)
    requires Sane(s) && i < |acts|
    ensures var t := Play(s, acts[..i]);
            Sane(t) && Play(s, acts[..i + 1]) == Play(t, [acts[i]]) && Load(t) + ActSize(acts[i]) <= Load(s) + Size(acts)
  {
    Around(acts, i);
    PlayShrinks(s, acts[..i]);
    SizeOfConcat(acts[..i], acts[i..]);
    PlayConcat(s, acts[..i], [acts[i]]);
  }

  lemma Around<T>(s: seq<T>, i: nat)
    requires i < |s|
    ensures s == s[..i] + s[i..] && s[..i + 1] == s[..i] + [s[i]]
  {
  }

  // Every run of pushes and calls of `next`, whoever makes them: from a queue that was never used, or from any
  // state that a run can reach.
  lemma {:induction false} EveryRun(s: Spec<Work>, agenda: seq<Act>)
    requires Correct(s)
    ensures Correct(Play(s, agenda))
    decreases Load(s) + Size(agenda)
  {
    if agenda != [] {
      ReactShrinks(s, agenda[0]);
      SizeOfConcat(Follow(s, agenda[0]), agenda[1..]);
      if agenda[0].Push? {
        PushIsCorrect(s, agenda[0].work);
      } else {
        NextIsCorrect(s);
      }
      EveryRun(React(s, agenda[0]), Follow(s, agenda[0]) + agenda[1..]);
    }
  }

  ////////// What the started steps do is done

  function NextsIn(acts: seq<Act>): nat {
    if acts == [] then 0 else (if acts[0].Next? then 1 else 0) + NextsIn(acts[1..])
  }

  function PushesIn(acts: seq<Act>): multiset<Work> {
    if acts == [] then multiset{} else (if acts[0].Push? then multiset{acts[0].work} else multiset{}) + PushesIn(acts[1..])
  }

  // What a series of steps calls.
  function ActsOf(works: seq<Work>): seq<Act> {
    if works == [] then [] else works[0].acts + ActsOf(works[1..])
  }

  lemma {:induction false} ActsConcat(a: seq<Act>, b: seq<Act>)
    ensures NextsIn(a + b) == NextsIn(a) + NextsIn(b) && PushesIn(a + b) == PushesIn(a) + PushesIn(b)
  {
    if a == [] {
      assert a + b == b;
    } else {
      assert (a + b)[1..] == a[1..] + b;
      ActsConcat(a[1..], b);
    }
  }

  lemma OfOne(work: Work)
    ensures ActsOf([work]) == work.acts && ActsOf([]) == []
  {
    assert work.acts + [] == work.acts;
  }

  lemma {:induction false} ActsOfConcat(a: seq<Work>, b: seq<Work>)
    ensures ActsOf(a + b) == ActsOf(a) + ActsOf(b)
  {
    if a == [] {
      assert a + b == b;
    } else {
      assert (a + b)[1..] == a[1..] + b;
      ActsOfConcat(a[1..], b);
    }
  }

  // A push to an idle queue starts its step at once, which makes its calls; a push to a busy one only waits.
  lemma {:induction false} PushPlays(s: Spec<Work>, work: Work)
    requires Sane(s)
    ensures var t := s.(pushed := s.pushed + [work]);
      Play(s, [Push(work)]) == if s.finished == |s.pushed| then Play(t.(log := s.log + [Started(work)]), work.acts) else t
  {
    PlayOne(s, Push(work));
  }

  lemma NextReacts(s: Spec<Work>)
    requires Sane(s)
    ensures var t := s.(finished := s.finished + 1);
      React(s, Next) ==
        if s.finished == |s.pushed| then s.(log := s.log + [Nexted] + [Emptied], stray := true)
        else if s.finished + 1 == |s.pushed| then t.(log := s.log + [Nexted] + [Emptied])
        else t.(log := s.log + [Nexted] + [Started(s.pushed[s.finished + 1])])
    ensures Follow(s, Next) == if s.finished + 1 < |s.pushed| then s.pushed[s.finished + 1].acts else []
  {
    if s.finished + 1 < |s.pushed| {
      assert Waiting(s)[0] == s.pushed[s.finished + 1];
    }
  }

  // A call of `next` by the last step empties the queue; otherwise the step behind starts and makes its calls.
  lemma {:induction false} NextPlays(s: Spec<Work>)
    requires Sane(s)
    ensures var t := s.(finished := s.finished + 1);
      Play(s, [Next]) ==
        if s.finished == |s.pushed| then s.(log := s.log + [Nexted] + [Emptied], stray := true)
        else if s.finished + 1 == |s.pushed| then t.(log := s.log + [Nexted] + [Emptied])
        else Play(t.(log := s.log + [Nexted] + [Started(s.pushed[s.finished + 1])]), s.pushed[s.finished + 1].acts)
  {
    PlayOne(s, Next);
    NextReacts(s);
    if s.finished + 1 >= |s.pushed| {
      assert Play(React(s, Next), []) == React(s, Next);
    }
  }

  // The calls made between two states: `calls`, and those of the steps that were started.
  ghost predicate Made(s: Spec<Work>, calls: seq<Act>, t: Spec<Work>, started: seq<Work>) {
    && Starts(t.log) == Starts(s.log) + started
    && Nexts(t.log) == Nexts(s.log) + NextsIn(calls) + NextsIn(ActsOf(started))
    && multiset(t.pushed) == multiset(s.pushed) + PushesIn(calls) + PushesIn(ActsOf(started))
  }

  // One call before its step makes any, if it starts one.
  ghost predicate Reacted(s: Spec<Work>, act: Act, t: Spec<Work>, started: seq<Work>) {
    && Starts(t.log) == Starts(s.log) + started
    && Nexts(t.log) == Nexts(s.log) + NextsIn([act])
    && multiset(t.pushed) == multiset(s.pushed) + PushesIn([act])
  }

  lemma {:induction false} PushCounts(s: Spec<Work>, work: Work) returns (started: seq<Work>)
    requires Sane(s)
    ensures Reacted(s, Push(work), OnPush(s, work), started) && Follow(s, Push(work)) == ActsOf(started)
  {
    LogAdd(s.log, Started(work));
    OfOne(work);
    started := if Idle(s) then [work] else [];
  }

  lemma {:induction false} NextCounts(s: Spec<Work>) returns (started: seq<Work>)
    requires Sane(s)
    ensures Reacted(s, Next, OnNext(s), started) && Follow(s, Next) == ActsOf(started)
  {
    started := if Waiting(s) == [] then [] else [Waiting(s)[0]];
    var last := if started == [] then Emptied else Started(started[0]);
    assert OnNext(s).log == s.log + [Nexted] + [last];
    LogNext(s.log, last);
    assert NextsIn([Next]) == 1 && PushesIn([Next]) == multiset{};
    if started != [] {
      OfOne(started[0]);
    }
  }

  lemma {:induction false} MadeOn(s: Spec<Work>, act: Act, rest: seq<Act>, t: Spec<Work>, u: Spec<Work>, first: seq<Work>, later: seq<Work>)
    requires Reacted(s, act, t, first) && Made(t, ActsOf(first) + rest, u, later)
    ensures Made(s, [act] + rest, u, first + later)
  {
    ActsOfConcat(first, later);
    ActsConcat([act], rest);
    ActsConcat(ActsOf(first), ActsOf(later));
    ActsConcat(ActsOf(first), rest);
    TailMovesAll(Starts(s.log), first, later);
    Reorder(multiset(s.pushed), PushesIn([act]), PushesIn(ActsOf(first)), PushesIn(rest), PushesIn(ActsOf(later)));
  }

  lemma TailMovesAll<W>(a: seq<W>, b: seq<W>, c: seq<W>)
    ensures a + (b + c) == a + b + c
  {
  }

  lemma Reorder<W>(a: multiset<W>, b: multiset<W>, c: multiset<W>, d: multiset<W>, e: multiset<W>)
    ensures a + b + (c + d) + e == a + (b + d) + (c + e)
  {
  }

  lemma {:induction false} ReactCounts(s: Spec<Work>, act: Act) returns (started: seq<Work>)
    requires Sane(s)
    ensures Reacted(s, act, React(s, act), started) && Follow(s, act) == ActsOf(started)
  {
    if act.Push? {
      started := PushCounts(s, act.work);
    } else {
      started := NextCounts(s);
    }
  }

  lemma PlayStep(s: Spec<Work>, act: Act, rest: seq<Act>) returns (t: Spec<Work>, calls: seq<Act>)
    requires Sane(s)
    ensures t == React(s, act) && calls == Follow(s, act) + rest
    ensures Sane(t) && Play(s, [act] + rest) == Play(t, calls) && Load(t) + Size(calls) < Load(s) + Size([act] + rest)
  {
    ReactShrinks(s, act);
    SizeOfConcat(Follow(s, act), rest);
    assert ([act] + rest)[1..] == rest;
    t, calls := React(s, act), Follow(s, act) + rest;
  }

  lemma MadeNothing(s: Spec<Work>)
    ensures Made(s, [], s, [])
  {
    OfOne(Work(0, []));
  }

  // Over every run, every call of every step that starts is made, and no other: `next` was called as often, and
  // those steps were pushed, as the agenda and the started steps say.
  lemma {:induction false} EveryActIsMade(s: Spec<Work>, agenda: seq<Act>) returns (started: seq<Work>)
    requires Sane(s)
    ensures Made(s, agenda, Play(s, agenda), started)
    decreases Load(s) + Size(agenda)
  {
    if agenda == [] {
      started := [];
      MadeNothing(s);
    } else {
      var act, rest := agenda[0], agenda[1..];
      assert agenda == [act] + rest;
      var t, calls := PlayStep(s, act, rest);
      var first := ReactCounts(s, act);
      var later := EveryActIsMade(t, calls);
      MadeOn(s, act, rest, t, Play(t, calls), first, later);
      started := first + later;
    }
  }

  ////////// The queue

  datatype Item = Sentinel | Task(work: Work)

  function Items(works: seq<Work>): seq<Item> {
    seq(|works|, i requires 0 <= i < |works| => Task(works[i]))
  }

  lemma ItemsTail(works: seq<Work>)
    ensures works != [] ==> Items(works)[0] == Task(works[0]) && Items(works)[1..] == Items(works[1..])
    ensures Items([]) == []
  {
  }

  class FxQueue {
    // The element's "fxqueue" data, and whether it has "fxqueueHooks" data.
    var queue: Option<seq<Item>>
    var hooks: bool
    ghost var spec: Spec<Work>

    // The sentinel is there, and at the head, exactly while a step is under way.
    ghost predicate Valid()
      reads this
    {
      && Sane(spec)
      && queue == (if Idle(spec) then None else Some([Sentinel] + Items(Waiting(spec))))
      && (hooks <==> !Idle(spec))
    }

    constructor ()
      ensures Valid() && Correct(spec) && spec == Spec([], 0, [], false)
    {
      queue, hooks, spec := None, false, Spec([], 0, [], false);
    }

    method Queue(work: Work)
      requires Valid()
      modifies this
      ensures Valid() && spec == Play(old(spec), [Push(work)])
      decreases Load(spec) + ActSize(Push(work)), 1
    {
      ghost var s := spec;
      PlayOne(s, Push(work));
      queue := if queue.Some? then Some(queue.value + [Task(work)]) else Some([Task(work)]);
      hooks := true;
      if queue.value[0] != Sentinel {
        Dequeue(Some(work));
      } else {
        spec := OnPush(spec, work);
        assert Waiting(spec) == Waiting(s) + [work];
        assert [Sentinel] + Items(Waiting(s) + [work]) == [Sentinel] + Items(Waiting(s)) + [Task(work)];
      }
    }

    // `begun` is the step that was just pushed to an idle queue, if it is not `next` that makes the call.
    method Dequeue(ghost begun: Option<Work>)
      requires begun.None? ==> Valid()
      requires begun.Some? ==> Sane(spec) && Idle(spec) && queue == Some([Task(begun.value)]) && hooks
      modifies this
      ensures Valid() && spec == Play(old(spec), [if begun.Some? then Push(begun.value) else Next])
      decreases Load(spec) + (if begun.Some? then ActSize(Push(begun.value)) else 1), 0
    {
      ghost var s, act := spec, if begun.Some? then Push(begun.value) else Next;
      PlayOne(s, act);
      ReactShrinks(s, act);
      StillWaiting(s, act);
      spec := React(s, act);
      var items := if queue.Some? then queue.value else [];
      var startLength := |items|;
      var fn := if items != [] then Some(items[0]) else None;
      items := if items != [] then items[1..] else [];
      hooks := true;
      if fn == Some(Sentinel) {
        assert items == Items(Waiting(s));
        ItemsTail(Waiting(s));
        fn := if items != [] then Some(items[0]) else None;
        items := if items != [] then items[1..] else [];
        startLength := startLength - 1;
      }
      assert items == Items(Waiting(spec));
      if fn.Some? {
        queue := Some([Sentinel] + items);
        Call(fn.value.work.acts);
      }
      if startLength == 0 {
        // hooks.empty removes both.
        queue, hooks := None, false;
      }
    }

    // What a step does before it returns.
    method Call(acts: seq<Act>)
      requires Valid()
      modifies this
      ensures Valid() && spec == Play(old(spec), acts)
      decreases Load(spec) + Size(acts), 2
    {
      ghost var s := spec;
      for i := 0 to |acts|
        invariant Valid() && spec == Play(s, acts[..i])
      {
        PlayNext(s, acts, i);
        match acts[i] {
          case Push(work) => Queue(work);
          case Next => Dequeue(None);
        }
      }
      assert acts[..|acts|] == acts;
    }
  }

  lemma PlayOne(s: Spec<Work>, act: Act)
    requires Sane(s)
    ensures Sane(React(s, act)) && Play(s, [act]) == Play(React(s, act), Follow(s, act))
  {
    ReactShrinks(s, act);
    assert Follow(s, act) + [act][1..] == Follow(s, act);
  }
}
