/** jQuery.Callbacks: a list of callbacks that may be changed, re-fired, locked or disabled
    by the very callbacks it is calling. */
module Callbacks {
  import opened Wrappers

  type Fn = nat
  type Data = nat

  /** A registration. `id` numbers registrations in the order they are made; no branch reads it. */
  datatype Entry = Entry(fn: Fn, id: nat)

  datatype Options = Options(once: bool, memory: bool, unique: bool, stopOnFalse: bool)

  /** What code holding the list can ask of it. */
  datatype Op = Add(fns: seq<Fn>) | Remove(fns: seq<Fn>) | FireWith(data: Data) | Disable | Lock

  /** What one invocation of a callback does to the list before it returns. */
  datatype Behaviour = Behaviour(ops: seq<Op>, returnsFalse: bool)

  datatype Call = Call(entry: Entry, data: Data)

  /** The list as its users see it: no indices, only what is registered (`entries`, None once
      disabled), what the current fire still has to call (`todo`) and which fires wait
      (`queue`, None when none may wait). `script` is what future callback invocations will do;
      `calls`, `asked` and `started` record what happened. */
  datatype State = State(
    options: Options, entries: Option<seq<Entry>>, queue: Option<seq<Data>>, memory: Option<Data>,
    firing: bool, fired: bool, todo: seq<Entry>, data: Data, next: nat, script: seq<Behaviour>,
    calls: seq<Call>, asked: seq<Data>, started: seq<Data>)

  predicate HasFn(es: seq<Entry>, fn: Fn) {
    exists k :: 0 <= k < |es| && es[k].fn == fn
  }

  function Without(es: seq<Entry>, fn: Fn): seq<Entry> {
    if es == [] then [] else (if es[0].fn == fn then [] else [es[0]]) + Without(es[1..], fn)
  }

  function AddOne(s: State, fn: Fn): (r: State)
    requires s.entries.Some?
    ensures r.entries.Some? && r.script == s.script && r.queue == s.queue && r.firing == s.firing
  {
    if s.options.unique && HasFn(s.entries.value, fn) then s
    else s.(entries := Some(s.entries.value + [Entry(fn, s.next)]), todo := s.todo + [Entry(fn, s.next)], next := s.next + 1)
  }

  /** Registers callbacks; the ones that were new are also put in `todo`. */
  function AddAll(s: State, fns: seq<Fn>): (r: State)
    requires s.entries.Some?
    ensures r.entries.Some? && r.script == s.script && r.queue == s.queue && r.firing == s.firing
  {
    if fns == [] then s else AddOne(AddAll(s, fns[..|fns| - 1]), fns[|fns| - 1])
  }

  function RemoveAll(s: State, fns: seq<Fn>): (r: State)
    requires s.entries.Some?
    ensures r.entries.Some? && r.script == s.script && r.queue == s.queue && r.firing == s.firing
  {
    if fns == [] then s else
      var r := RemoveAll(s, fns[..|fns| - 1]);
      var fn := fns[|fns| - 1];
      r.(entries := Some(Without(r.entries.value, fn)), todo := Without(r.todo, fn))
  }

  function Disabled(s: State): State {
    s.(entries := None, queue := None, memory := None, todo := [])
  }

  function Locked(s: State): State {
    if s.memory.None? then Disabled(s) else s.(queue := None)
  }

  /** An operation made from inside a callback of this list: nothing can fire in here. */
  function Nested(s: State, op: Op): (r: State)
    requires s.firing
    ensures r.script == s.script && r.firing
  {
    match op
    case Add(fns) => if s.entries.None? then s else AddAll(s, fns)
    case Remove(fns) => if s.entries.None? then s else RemoveAll(s, fns)
    case FireWith(d) => if s.entries.Some? && s.queue.Some? then s.(queue := Some(s.queue.value + [d]), asked := s.asked + [d]) else s
    case Disable => Disabled(s)
    case Lock => Locked(s)
  }

  function NestedAll(s: State, ops: seq<Op>): (r: State)
    requires s.firing
    ensures r.script == s.script && r.firing
  {
    if ops == [] then s else Nested(NestedAll(s, ops[..|ops| - 1]), ops[|ops| - 1])
  }

  /** The first entry of `todo` is called and does what the script says. */
  function CallFirst(s: State): (r: State)
    requires s.firing && s.entries.Some? && s.todo != []
    ensures r.firing
    ensures if s.script == [] then r.script == [] && r.queue == s.queue && |r.todo| < |s.todo| else r.script == s.script[1..]
  {
    var called := s.(todo := s.todo[1..], calls := s.calls + [Call(s.todo[0], s.data)]);
    if s.script == [] then called else
      var after := NestedAll(called.(script := s.script[1..]), s.script[0].ops);
      if s.script[0].returnsFalse && s.options.stopOnFalse then after.(memory := None, todo := []) else after
  }

  function Begin(s: State, todo: seq<Entry>, d: Data): State {
    s.(memory := if s.options.memory then Some(d) else None, firing := true, fired := true, todo := todo, data := d)
  }

  function QueueLength(s: State): nat {
    if s.queue.Some? then |s.queue.value| else 0
  }

  /** A fire taken from the queue once a batch is over. */
  function NextFire(s: State): State
    requires s.entries.Some? && s.queue.Some? && s.queue.value != []
  {
    var d := s.queue.value[0];
    Begin(s.(queue := Some(s.queue.value[1..]), started := s.started + [d]), s.entries.value, d)
  }

  /** The end of a fire when no other one waits. */
  function AtRest(s: State): (r: State)
    ensures !r.firing
  {
    if s.entries.None? then s.(firing := false, todo := [])
    else if s.queue.Some? then s.(firing := false)
    else if s.memory.Some? then s.(firing := false, entries := Some([]))
    else Disabled(s).(firing := false)
  }

  /** Calls what is to be called, then turns to the fires that wait. */
  function Drain(s: State): (r: State)
    requires s.firing
    ensures !r.firing
    decreases |s.script|, QueueLength(s), |s.todo|
  {
    if s.entries.Some? && s.todo != [] then Drain(CallFirst(s))
    else if s.entries.Some? && s.queue.Some? && s.queue.value != [] then Drain(NextFire(s))
    else AtRest(s)
  }

  /** An operation made while the list is not firing. */
  function Outer(s: State, op: Op): (r: State)
    requires !s.firing
    ensures !r.firing
  {
    match op
    case Add(fns) =>
      if s.entries.None? then s else
        var r := AddAll(s.(todo := []), fns);
        if r.memory.Some? then Drain(Begin(r, r.todo, r.memory.value)) else r.(todo := [])
    case Remove(fns) => if s.entries.None? then s else RemoveAll(s, fns)
    case FireWith(d) =>
      if s.entries.Some? && (!s.fired || s.queue.Some?) then
        Drain(Begin(s.(asked := s.asked + [d], started := s.started + [d]), s.entries.value, d))
      else
        s
    case Disable => Disabled(s)
    case Lock => Locked(s)
  }

  function Initial(options: Options, script: seq<Behaviour>): State {
    State(options, Some([]), if options.once then None else Some([]), None, false, false, [], 0, 0, script, [], [], [])
  }

  /** A whole life of a list: the operations made from outside, each with all it sets off. */
  function Life(options: Options, script: seq<Behaviour>, ops: seq<Op>): (r: State)
    ensures !r.firing
  {
    if ops == [] then Initial(options, script) else Outer(Life(options, script, ops[..|ops| - 1]), ops[|ops| - 1])
  }

  // Facts about removing a callback, needed for the in-place version.

  lemma {:induction false} WithoutConcat(a: seq<Entry>, b: seq<Entry>, fn: Fn)
    ensures Without(a + b, fn) == Without(a, fn) + Without(b, fn)
  {
    if a == [] {
      assert a + b == b;
    } else {
      assert (a + b)[1..] == a[1..] + b;
      WithoutConcat(a[1..], b, fn);
    }
  }

  lemma WithoutSplice(es: seq<Entry>, k: nat, fn: Fn)
    requires k < |es| && es[k].fn == fn
    ensures Without(es[..k] + es[k + 1..], fn) == Without(es, fn)
  {
    var a, b := es[..k], es[k + 1..];
    assert es == a + ([es[k]] + b);
    WithoutConcat(a, b, fn);
    WithoutConcat(a, [es[k]] + b, fn);
    assert ([es[k]] + b)[1..] == b;
  }

  /** Dropping slot `k` of the array and moving `at` back when `k` is not after it. */
  lemma SpliceRest(es: seq<Entry>, k: nat, at: int, fn: Fn)
    requires -1 <= at < |es| && k < |es| && es[k].fn == fn
    ensures var at' := if k <= at then at - 1 else at;
            Without((es[..k] + es[k + 1..])[at' + 1..], fn) == Without(es[at + 1..], fn)
  {
    if k <= at {
      assert (es[..k] + es[k + 1..])[at..] == es[at + 1..];
    } else {
      var rest := es[at + 1..];
      assert (es[..k] + es[k + 1..])[at + 1..] == rest[..k - at - 1] + rest[k - at..];
      WithoutSplice(rest, k - at - 1, fn);
    }
  }

  lemma {:induction false} WithoutNone(es: seq<Entry>, fn: Fn)
    requires !HasFn(es, fn)
    ensures Without(es, fn) == es
  {
    if es != [] {
      assert forall k :: 0 <= k < |es[1..]| ==> es[1..][k] == es[k + 1];
      WithoutNone(es[1..], fn);
    }
  }

  /** The first index from `from` on that holds the callback, or -1. */
  function InArray(es: seq<Entry>, fn: Fn, from: nat): (index: int)
    requires from <= |es|
    ensures -1 <= index < |es|
    ensures index >= 0 ==> from <= index && es[index].fn == fn
    ensures forall k :: from <= k < (if index >= 0 then index else |es|) ==> es[k].fn != fn
    decreases |es| - from
  {
    if from == |es| then -1 else if es[from].fn == fn then from else InArray(es, fn, from + 1)
  }

  /** The list as jQuery keeps it: an array, the index of the running callback and the end of
      the current batch, both repaired when the array changes under a fire. */
  class CallbackList {
    const options: Options
    var list: Option<seq<Entry>>
    var stack: Option<seq<Data>>
    var memory: Option<Data>
    var firing: bool
    var fired: bool
    var firingStart: int
    var firingLength: int
    var firingIndex: int
    var registrations: nat
    var script: seq<Behaviour>
    ghost var data: Data
    ghost var calls: seq<Call>
    ghost var asked: seq<Data>
    ghost var started: seq<Data>

    constructor (options: Options, script: seq<Behaviour>)
      ensures this.options == options && Valid() && !firing && View() == Initial(options, script)
    {
      this.options, this.script := options, script;
      list, stack, memory := Some([]), if options.once then None else Some([]), None;
      firing, fired, firingStart, firingLength, firingIndex := false, false, 0, 0, 0;
      registrations, data, calls, asked, started := 0, 0, [], [], [];
    }

    /** Between operations, a fire that is under way is inside a callback. */
    ghost predicate Valid()
      reads this
    {
      && firingStart == 0
      && (firing ==> fired)
      && (firing && list.Some? ==> -1 <= firingIndex < |list.value| && firingLength == |list.value|)
    }

    ghost function With(todo: seq<Entry>): State
      reads this
    {
      State(options, list, stack, memory, firing, fired, todo, data, registrations, script, calls, asked, started)
    }

    /** The slots after `firingIndex` up to `firingLength` are what is left to call. */
    ghost function View(): State
      requires Valid()
      reads this
    {
      With(if firing && list.Some? then list.value[firingIndex + 1..firingLength] else [])
    }

    method AddCallbacks(fns: seq<Fn>)
      requires Valid()
      modifies this
      ensures Valid()
      ensures View() == if old(firing) then Nested(old(View()), Add(fns)) else Outer(old(View()), Add(fns))
      decreases |script|, if stack.Some? then |stack.value| else 0, 5
    {
      if list.Some? {
        var start := |list.value|;
        if firing {
          assert list.value[firingIndex + 1..] == list.value[firingIndex + 1..firingLength];
          PushAll(fns, firingIndex + 1);
          firingLength := |list.value|;
          assert list.value[firingIndex + 1..] == list.value[firingIndex + 1..firingLength];
        } else {
          assert list.value[start..] == [];
          PushAll(fns, start);
          if memory.Some? {
            firingStart := start;
            assert Begin(With([]), list.value[start..], memory.value) == Begin(With(list.value[start..]), list.value[start..], memory.value);
            Fire(memory.value);
          }
        }
      }
    }

    method PushAll(fns: seq<Fn>, ghost first: nat)
      requires list.Some? && first <= |list.value|
      modifies this`list, this`registrations
      ensures list.Some? && |old(list.value)| <= |list.value|
      ensures With(list.value[first..]) == AddAll(old(With(list.value[first..])), fns)
    {
      for i := 0 to |fns|
        invariant list.Some? && |old(list.value)| <= |list.value|
        invariant With(list.value[first..]) == AddAll(old(With(list.value[first..])), fns[..i])
      {
        assert fns[..i + 1][..i] == fns[..i];
        if !options.unique || InArray(list.value, fns[i], 0) == -1 {
          assert (list.value + [Entry(fns[i], registrations)])[first..] == list.value[first..] + [Entry(fns[i], registrations)];
          list := Some(list.value + [Entry(fns[i], registrations)]);
          registrations := registrations + 1;
        }
      }
      assert fns[..|fns|] == fns;
    }

    method RemoveCallbacks(fns: seq<Fn>)
      requires Valid()
      modifies this
      ensures Valid() && firing == old(firing) && unchanged(this`script)
      ensures View() == if old(firing) then Nested(old(View()), Remove(fns)) else Outer(old(View()), Remove(fns))
    {
      if list.Some? {
        for i := 0 to |fns|
          invariant list.Some? && Valid() && unchanged(this`firing, this`script)
          invariant View() == RemoveAll(old(View()), fns[..i])
        {
          assert fns[..i + 1][..i] == fns[..i];
          RemoveFn(fns[i]);
        }
        assert fns[..|fns|] == fns;
      }
    }

    method RemoveFn(fn: Fn)
      requires Valid() && list.Some?
      modifies this`list, this`firingLength, this`firingIndex
      ensures Valid() && list.Some?
      ensures View() == old(View()).(entries := Some(Without(old(list.value), fn)), todo := Without(old(View()).todo, fn))
    {
      SpliceAll(fn);
      WithoutNone(list.value, fn);
      if firing {
        WithoutNone(list.value[firingIndex + 1..], fn);
        assert list.value[firingIndex + 1..firingLength] == list.value[firingIndex + 1..];
        assert old(list.value[firingIndex + 1..firingLength]) == old(list.value[firingIndex + 1..]);
      }
    }

    method SpliceAll(fn: Fn)
      requires Valid() && list.Some?
      modifies this`list, this`firingLength, this`firingIndex
      ensures Valid() && list.Some? && forall k :: 0 <= k < |list.value| ==> list.value[k].fn != fn
      ensures Without(list.value, fn) == Without(old(list.value), fn)
      ensures firing ==> Without(list.value[firingIndex + 1..], fn) == Without(old(list.value[firingIndex + 1..]), fn)
    {
      var index := InArray(list.value, fn, 0);
      while index > -1
        invariant list.Some? && Valid() && -1 <= index < |list.value|
        invariant index > -1 ==> list.value[index].fn == fn
        invariant forall k :: 0 <= k < (if index > -1 then index else |list.value|) ==> list.value[k].fn != fn
        invariant Without(list.value, fn) == Without(old(list.value), fn)
        invariant firing ==> Without(list.value[firingIndex + 1..], fn) == Without(old(list.value[firingIndex + 1..]), fn)
        decreases |list.value|
      {
        Splice(index, fn);
        index := InArray(list.value, fn, index);
      }
    }

    method Splice(index: nat, ghost fn: Fn)
      requires Valid() && list.Some? && index < |list.value| && list.value[index].fn == fn
      modifies this`list, this`firingLength, this`firingIndex
      ensures Valid() && list == Some(old(list.value[..index]) + old(list.value[index + 1..]))
      ensures Without(list.value, fn) == Without(old(list.value), fn)
      ensures firing ==> Without(list.value[firingIndex + 1..], fn) == Without(old(list.value[firingIndex + 1..]), fn)
    {
      WithoutSplice(list.value, index, fn);
      if firing {
        SpliceRest(list.value, index, firingIndex, fn);
      }
      list := Some(list.value[..index] + list.value[index + 1..]);
      if firing {
        if index <= firingLength {
          firingLength := firingLength - 1;
        }
        if index <= firingIndex {
          firingIndex := firingIndex - 1;
        }
      }
    }

    method DisableList()
      requires Valid()
      modifies this
      ensures Valid() && firing == old(firing) && unchanged(this`script)
      ensures View() == Disabled(old(View()))
    {
      list, stack, memory := None, None, None;
    }

    method LockList()
      requires Valid()
      modifies this
      ensures Valid() && firing == old(firing) && unchanged(this`script)
      ensures View() == Locked(old(View()))
    {
      stack := None;
      if memory.None? {
        DisableList();
      }
    }

    method FireWithData(d: Data)
      requires Valid()
      modifies this
      ensures Valid()
      ensures View() == if old(firing) then Nested(old(View()), FireWith(d)) else Outer(old(View()), FireWith(d))
      decreases |script|, if stack.Some? then |stack.value| else 0, 5
    {
      if list.Some? && (!fired || stack.Some?) {
        asked := asked + [d];
        if firing {
          stack := Some(stack.value + [d]);
        } else {
          started := started + [d];
          assert list.value[0..] == list.value;
          Fire(d);
        }
      }
    }

    /** One operation, whoever makes it. */
    method Perform(op: Op)
      requires Valid()
      modifies this
      ensures Valid()
      ensures View() == if old(firing) then Nested(old(View()), op) else Outer(old(View()), op)
      decreases |script|, if stack.Some? then |stack.value| else 0, 6
    {
      match op
      case Add(fns) => AddCallbacks(fns);
      case Remove(fns) => RemoveCallbacks(fns);
      case FireWith(d) => FireWithData(d);
      case Disable => DisableList();
      case Lock => LockList();
    }

    /** Calls the callback at `firingIndex`, and says whether it stops the fire. */
    method Invoke() returns (stop: bool)
      requires Valid() && firing && list.Some? && 0 <= firingIndex
      modifies this
      ensures Valid() && firing
      ensures if old(script) == [] then unchanged(this`script, this`stack, this`list, this`firingIndex, this`firingLength) else script == old(script)[1..]
      ensures Drain(old(With(list.value[firingIndex..firingLength]))) == Drain(if stop then View().(memory := None, todo := []) else View())
      decreases |script|, if stack.Some? then |stack.value| else 0, 2
    {
      ghost var s := With(list.value[firingIndex..firingLength]);
      calls := calls + [Call(list.value[firingIndex], data)];
      DrainCalls(s);
      assert s.todo[1..] == list.value[firingIndex + 1..firingLength];
      if script == [] {
        return false;
      }
      var behaviour := script[0];
      script := script[1..];
      ghost var called := View();
      for i := 0 to |behaviour.ops|
        invariant Valid() && firing && script == old(script)[1..]
        invariant View() == NestedAll(called, behaviour.ops[..i])
      {
        assert behaviour.ops[..i + 1][..i] == behaviour.ops[..i];
        Perform(behaviour.ops[i]);
      }
      assert behaviour.ops[..|behaviour.ops|] == behaviour.ops;
      stop := behaviour.returnsFalse && options.stopOnFalse;
    }

    /** Fires the callbacks from `firingStart` on, then the fires that were asked for meanwhile. */
    method Fire(d: Data)
      requires !firing && list.Some? && 0 <= firingStart <= |list.value|
      modifies this
      ensures Valid() && !firing
      ensures View() == Drain(Begin(old(With([])), old(list.value[firingStart..]), d))
      decreases |script|, if stack.Some? then |stack.value| else 0, 4
    {
      StartBatch(d);
      CallBatch();
      Finish();
    }

    method StartBatch(d: Data)
      requires !firing && list.Some? && 0 <= firingStart <= |list.value|
      modifies this
      ensures firing && fired && firingStart == 0 && unchanged(this`list, this`stack, this`script)
      ensures 0 <= firingIndex <= firingLength == |list.value|
      ensures With(list.value[firingIndex..firingLength]) == Begin(old(With([])), old(list.value[firingStart..]), d)
    {
      memory := if options.memory then Some(d) else None;
      fired := true;
      firingIndex := firingStart;
      firingStart := 0;
      firingLength := |list.value|;
      firing := true;
      data := d;
    }

    /** Calls one callback after another until the end of the batch, or until the list is disabled. */
    method CallBatch()
      requires firing && fired && firingStart == 0
      requires list.Some? && 0 <= firingIndex <= firingLength == |list.value|
      modifies this
      ensures firing && fired && firingStart == 0
      ensures Drain(With([])) == Drain(old(With(list.value[firingIndex..firingLength])))
      ensures |script| < |old(script)| || (script == old(script) && stack == old(stack))
      decreases |script|, if stack.Some? then |stack.value| else 0, 3
    {
      ghost var goal := Drain(With(list.value[firingIndex..firingLength]));
      while list.Some? && firingIndex < firingLength
        invariant firing && fired && firingStart == 0
        invariant list.Some? ==> 0 <= firingIndex <= firingLength == |list.value|
        invariant Drain(With(if list.Some? then list.value[firingIndex..firingLength] else [])) == goal
        invariant |script| < |old(script)| || (script == old(script) && stack == old(stack))
        decreases |script|, if list.Some? then firingLength - firingIndex else 0
      {
        var stop := Invoke();
        if stop {
          memory := None;
          break;
        }
        firingIndex := firingIndex + 1;
      }
    }

    /** The end of a batch. */
    method Finish()
      requires firing && fired && firingStart == 0
      modifies this
      ensures Valid() && !firing
      ensures View() == Drain(old(With([])))
      decreases |script|, if stack.Some? then |stack.value| else 0, 2
    {
      firing := false;
      if list.Some? {
        if stack.Some? {
          if stack.value != [] {
            var waiting := stack.value[0];
            stack := Some(stack.value[1..]);
            started := started + [waiting];
            assert list.value[0..] == list.value;
            Fire(waiting);
          }
        } else if memory.Some? {
          list := Some([]);
        } else {
          DisableList();
        }
      }
    }
  }

  lemma DrainCalls(s: State)
    requires s.firing && s.entries.Some? && s.todo != []
    ensures Drain(s) == Drain(CallFirst(s))
  {
  }
  /** A list through its whole life, with the indices. */
  method Live(options: Options, script: seq<Behaviour>, ops: seq<Op>) returns (list: CallbackList)
    ensures fresh(list) && list.Valid() && !list.firing
    ensures list.View() == Life(options, script, ops)
  {
    list := new CallbackList(options, script);
    for i := 0 to |ops|
      invariant fresh(list) && list.Valid() && !list.firing
      invariant list.View() == Life(options, script, ops[..i])
    {
      assert ops[..i + 1][..i] == ops[..i];
      list.Perform(ops[i]);
    }
    assert ops[..|ops|] == ops;
  }
}
