// Per-element data: how DOM nodes get the numbers that tie them to their entries in the global cache, and how these
// numbers are freed and used again.
module DataIds {
  import opened Wrappers

  type Node = nat

  // What a private data object holds under a name: the public data object, the handlers of every event type (each
  // given by the type it was asked for), or anything else.
  datatype Value = Object(fields: map<string, Value>) | Handlers(events: map<string, seq<string>>) | Plain(value: nat)

  type Data = map<string, Value>

  // Values without enumerable names count as empty.
  predicate IsEmptyObject(v: Value) {
    match v
    case Object(fields) => fields == map[]
    case Handlers(events) => events == map[]
    case Plain(_) => true
  }

  predicate IsEmptyData(d: Data) {
    forall name <- d :: name == "toJSON" || (name == "data" && IsEmptyObject(d[name]))
  }

  function EventsOf(d: Data): Option<map<string, seq<string>>> {
    if "events" in d && d["events"].Handlers? then Some(d["events"].events) else None
  }

  function PublicOf(d: Data): Option<Data> {
    if "data" in d && d["data"].Object? then Some(d["data"].fields) else None
  }

  function Remove(d: Data, names: seq<string>): Data {
    map name <- d | name !in names :: d[name]
  }

  // What `internalData` is called with: a name, an object to copy over, or nothing.
  datatype Key = Named(name: string) | Extend(fields: Data) | Whole

  ////////// A store without numbers: each node has its data object or has none

  type Store = map<Node, Data>

  function Lookup(store: Store, n: Node): Data {
    if n in store then store[n] else map[]
  }

  // A read by name that finds nothing does not create anything.
  predicate IsLookup(entry: Option<Data>, key: Key, value: Option<Value>, pvt: bool) {
    key.Named? && value.None? && (entry.None? || (!pvt && "data" !in entry.value))
  }

  function Fill(d: Data, key: Key, value: Option<Value>): Data {
    if key.Extend? then d + key.fields
    else if key.Named? && value.Some? then d[key.name := value.value]
    else d
  }

  function Written(d: Data, key: Key, value: Option<Value>, pvt: bool): Data {
    if pvt then Fill(d, key, value)
    else d["data" := Object(Fill(if PublicOf(d).Some? then PublicOf(d).value else map[], key, value))]
  }

  // What a name stands for in a data object, or in the public data in it.
  function Found(d: Data, key: Key, pvt: bool): Option<Value> {
    var fields := if pvt then d else if PublicOf(d).Some? then PublicOf(d).value else map[];
    if key.Named? && key.name in fields then Some(fields[key.name]) else None
  }

  // What is left of a data object when names are removed from it; nothing when it is to be dropped.
  function Remaining(d: Data, names: Option<seq<string>>, pvt: bool): Option<Data> {
    if pvt then
      if names.Some? && !IsEmptyData(Remove(d, names.value)) then Some(Remove(d, names.value)) else None
    else if names.Some? && PublicOf(d).Some? && Remove(PublicOf(d).value, names.value) != map[] then
      Some(d["data" := Object(Remove(PublicOf(d).value, names.value))])
    else
      var rest := Remove(d, ["data"]);
      if IsEmptyData(rest) then None else Some(rest)
  }

  function WithHandler(d: Data, eventType: string, origType: string): Data {
    var events := if EventsOf(d).Some? then EventsOf(d).value else map[];
    var handlers := if eventType in events then events[eventType] else [];
    var e := d["events" := Handlers(events[eventType := handlers + [origType]])];
    if "handle" in e then e else e["handle" := Plain(0)]
  }

  // The handlers that a removal by type leaves: those asked for under another type that was mapped to this one.
  function Others(handlers: seq<string>, origType: string): seq<string> {
    if handlers == [] then []
    else (if handlers[0] == origType then [] else [handlers[0]]) + Others(handlers[1..], origType)
  }

  function EventsWithout(events: map<string, seq<string>>, eventType: string): map<string, seq<string>> {
    if eventType !in events then events
    else if events[eventType] != [] && Others(events[eventType], eventType) == [] then events - {eventType}
    else events[eventType := Others(events[eventType], eventType)]
  }

  function WithoutHandlers(d: Data, eventType: string): Option<Data> {
    if IsEmptyData(d) || EventsOf(d).None? then Some(d)
    else
      var events := EventsWithout(EventsOf(d).value, eventType);
      var e := d["events" := Handlers(events)];
      if events == map[] then Remaining(e - {"handle"}, Some(["events"]), true) else Some(e)
  }

  ////////// The store with numbers

  // The number on each node, the global cache by number, the free list and the next number. `issued` is every
  // number that was ever put on a node.
  datatype State = State(expando: map<Node, nat>, cache: map<nat, Data>, deletedIds: seq<nat>, guid: nat,
                         issued: set<nat>)

  const Empty := State(map[], map[], [], 1, {})

  // The number on a node; 0, which is no number, when there is none.
  function Id(s: State, n: Node): nat {
    if n in s.expando then s.expando[n] else 0
  }

  // The numbers on nodes are distinct and have entries, no other entry exists, and the rest of the issued numbers
  // waits in the free list, each once.
  ghost predicate Safe(s: State) {
    && 1 <= s.guid
    && (forall id <- s.issued :: 1 <= id < s.guid)
    && (forall m, n :: m in s.expando && n in s.expando && s.expando[m] == s.expando[n] ==> m == n)
    && (forall n :: n in s.expando ==> s.expando[n] in s.cache)
    && (forall id :: id in s.cache ==> exists n :: n in s.expando && s.expando[n] == id)
    && (forall i, j :: 0 <= i < j < |s.deletedIds| ==> s.deletedIds[i] != s.deletedIds[j])
    && (forall id :: id in s.deletedIds ==> id !in s.cache)
    && (forall id :: id in s.issued <==> id in s.cache || id in s.deletedIds)
  }

  // The numbers out of sight.
  function Abs(s: State): Store {
    map n | n in s.expando && s.expando[n] in s.cache :: s.cache[s.expando[n]]
  }

  function EntryOf(s: State, n: Node): Option<Data> {
    if Id(s, n) in s.cache then Some(s.cache[Id(s, n)]) else None
  }

  function Put(s: State, n: Node, d: Data): State {
    s.(cache := s.cache[Id(s, n) := d])
  }

  // Gives a node a number, the last one freed or else a new one, and an entry, unless it has them.
  function Own(s: State, n: Node): State {
    var t :=
      if Id(s, n) != 0 then s
      else
        var last := |s.deletedIds| - 1;
        var freed := if last >= 0 then s.deletedIds[last] else 0;
        var left := if last >= 0 then s.deletedIds[..last] else [];
        if freed != 0 then
          s.(expando := s.expando[n := freed], deletedIds := left, issued := s.issued + {freed})
        else
          s.(expando := s.expando[n := s.guid], deletedIds := left, issued := s.issued + {s.guid}, guid := s.guid + 1);
    if Id(t, n) in t.cache then t else Put(t, n, map[])
  }

  function Release(s: State, n: Node): State {
    if Id(s, n) in s.cache then
      s.(expando := s.expando - {n}, cache := s.cache - {Id(s, n)}, deletedIds := s.deletedIds + [Id(s, n)])
    else s
  }

  function Settle(s: State, n: Node, d: Option<Data>): State {
    if d.None? then Release(s, n) else Put(s, n, d.value)
  }

  ////////// Operations and runs

  datatype Operation =
    | Access(n: Node, key: Key, value: Option<Value>, pvt: bool)
    | RemoveData(n: Node, names: Option<seq<string>>, pvt: bool)
    | AddHandler(n: Node, eventType: string, origType: string)
    | RemoveHandlers(n: Node, eventType: string)
    | Clean(nodes: seq<Node>, evenIfRefused: bool)
    | NextGuid

  function CleanAll(accepts: set<Node>, s: State, nodes: seq<Node>, evenIfRefused: bool): State {
    if nodes == [] then s
    else
      var last := |nodes| - 1;
      var t := CleanAll(accepts, s, nodes[..last], evenIfRefused);
      if evenIfRefused || nodes[last] in accepts then Release(t, nodes[last]) else t
  }

  function Step(accepts: set<Node>, s: State, op: Operation): State {
    match op
    case Access(n, key, value, pvt) =>
      if n !in accepts || IsLookup(EntryOf(s, n), key, value, pvt) then s
      else
        var t := Own(s, n);
        Put(t, n, Written(EntryOf(t, n).value, key, value, pvt))
    case RemoveData(n, names, pvt) =>
      if n !in accepts || EntryOf(s, n).None? then s
      else Settle(s, n, Remaining(EntryOf(s, n).value, names, pvt))
    case AddHandler(n, eventType, origType) =>
      if n !in accepts then s
      else
        var t := Own(s, n);
        Put(t, n, WithHandler(EntryOf(t, n).value, eventType, origType))
    case RemoveHandlers(n, eventType) =>
      if n !in accepts || EntryOf(s, n).None? then s
      else Settle(s, n, WithoutHandlers(EntryOf(s, n).value, eventType))
    case Clean(nodes, evenIfRefused) => CleanAll(accepts, s, nodes, evenIfRefused)
    case NextGuid => s.(guid := s.guid + 1)
  }

  // What internalData returns.
  function Answer(accepts: set<Node>, s: State, n: Node, key: Key, value: Option<Value>, pvt: bool): Option<Value> {
    if n !in accepts || IsLookup(EntryOf(s, n), key, value, pvt) then None
    else Found(EntryOf(Step(accepts, s, Access(n, key, value, pvt)), n).value, key, pvt)
  }

  function Run(accepts: set<Node>, s: State, ops: seq<Operation>): State {
    if ops == [] then s else Step(accepts, Run(accepts, s, ops[..|ops| - 1]), ops[|ops| - 1])
  }

  // The same operations on a store without numbers.
  function PlainStep(accepts: set<Node>, store: Store, op: Operation): Store {
    match op
    case Access(n, key, value, pvt) =>
      if n !in accepts || IsLookup(if n in store then Some(store[n]) else None, key, value, pvt) then store
      else store[n := Written(Lookup(store, n), key, value, pvt)]
    case RemoveData(n, names, pvt) =>
      if n !in accepts || n !in store then store
      else Keep(store, n, Remaining(store[n], names, pvt))
    case AddHandler(n, eventType, origType) =>
      if n !in accepts then store else store[n := WithHandler(Lookup(store, n), eventType, origType)]
    case RemoveHandlers(n, eventType) =>
      if n !in accepts || n !in store then store
      else Keep(store, n, WithoutHandlers(store[n], eventType))
    case Clean(nodes, evenIfRefused) =>
      store - Cleaned(accepts, nodes, evenIfRefused)
    case NextGuid => store
  }

  function Cleaned(accepts: set<Node>, nodes: seq<Node>, evenIfRefused: bool): set<Node> {
    set n <- nodes | evenIfRefused || n in accepts
  }

  function Keep(store: Store, n: Node, d: Option<Data>): Store {
    if d.None? then store - {n} else store[n := d.value]
  }

  function PlainRun(accepts: set<Node>, store: Store, ops: seq<Operation>): Store {
    if ops == [] then store else PlainStep(accepts, PlainRun(accepts, store, ops[..|ops| - 1]), ops[|ops| - 1])
  }

  ////////// Safety and refinement

  lemma EntryIsAbs(s: State, n: Node)
    requires Safe(s)
    ensures EntryOf(s, n) == if n in Abs(s) then Some(Abs(s)[n]) else None
    ensures EntryOf(s, n).Some? <==> n in s.expando
  {
  }

  // A free or new number goes to a node without one.
  lemma Attach(s: State, n: Node, id: nat, left: seq<nat>, guid: nat) returns (t: State)
    requires Safe(s) && n !in s.expando && id !in s.cache && 1 <= id < guid && s.guid <= guid
    requires left <= s.deletedIds && forall other <- s.deletedIds :: other in left <==> other != id
    ensures t == State(s.expando[n := id], s.cache[id := map[]], left, guid, s.issued + {id})
    ensures Safe(t)
  {
    t := State(s.expando[n := id], s.cache[id := map[]], left, guid, s.issued + {id});
    assert t.expando[n] == id;
    forall other <- t.cache ensures exists m :: m in t.expando && t.expando[m] == other {
      if other != id {
        var m :| m in s.expando && s.expando[m] == other;
        assert t.expando[m] == other;
      }
    }
    assert forall other <- left :: other in s.deletedIds;
  }

  lemma AttachedEntry(s: State, n: Node, t: State, id: nat)
    requires Safe(s) && n !in s.expando && id !in s.cache
    requires t.expando == s.expando[n := id] && t.cache == s.cache[id := map[]]
    ensures Abs(t) == Abs(s)[n := map[]]
  {
  }

  // A number that is given to a node was on no other node, and its entry starts out empty.
  lemma OwnIsSafe(s: State, n: Node)
    requires Safe(s)
    ensures Safe(Own(s, n)) && EntryOf(Own(s, n), n).Some?
    ensures Abs(Own(s, n)) == Abs(s)[n := Lookup(Abs(s), n)]
  {
    if n !in s.expando {
      var last := |s.deletedIds| - 1;
      if last >= 0 {
        assert s.deletedIds[last] in s.issued;
        var t := Attach(s, n, s.deletedIds[last], s.deletedIds[..last], s.guid);
        AttachedEntry(s, n, t, s.deletedIds[last]);
      } else {
        var t := Attach(s, n, s.guid, [], s.guid + 1);
        AttachedEntry(s, n, t, s.guid);
      }
    } else {
      assert Own(s, n) == s;
    }
  }

  lemma PutIsSafe(s: State, n: Node, d: Data)
    requires Safe(s) && EntryOf(s, n).Some?
    ensures Safe(Put(s, n, d))
    ensures Abs(Put(s, n, d)) == Abs(s)[n := d]
  {
    assert Put(s, n, d).cache.Keys == s.cache.Keys;
    PutIsUpdate(s, n, d);
  }

  lemma PutIsUpdate(s: State, n: Node, d: Data)
    requires Safe(s) && EntryOf(s, n).Some?
    ensures Abs(Put(s, n, d)) == Abs(s)[n := d]
  {
    assert forall m <- Abs(s) :: m != n ==> s.expando[m] != s.expando[n];
  }

  lemma ReleaseIsSafe(s: State, n: Node)
    requires Safe(s)
    ensures Safe(Release(s, n))
  {
    if n in s.expando {
      var t, id := Release(s, n), s.expando[n];
      forall other <- t.cache ensures exists m :: m in t.expando && t.expando[m] == other {
        var m :| m in s.expando && s.expando[m] == other;
        assert t.expando[m] == other;
      }
      assert t.deletedIds[|s.deletedIds|] == id;
      assert forall other :: other in t.deletedIds <==> other in s.deletedIds || other == id;
    }
  }

  lemma ReleaseIsRemoval(s: State, n: Node)
    requires Safe(s)
    ensures Abs(Release(s, n)) == Abs(s) - {n}
  {
  }

  lemma SettleIsSafe(s: State, n: Node, d: Option<Data>)
    requires Safe(s) && EntryOf(s, n).Some?
    ensures Safe(Settle(s, n, d))
    ensures Abs(Settle(s, n, d)) == Keep(Abs(s), n, d)
  {
    if d.None? {
      ReleaseIsSafe(s, n);
      ReleaseIsRemoval(s, n);
    } else {
      PutIsSafe(s, n, d.value);
    }
  }

  lemma ReplaceIsSafe(s: State, n: Node, d: Data)
    requires Safe(s)
    ensures EntryOf(Own(s, n), n) == Some(Lookup(Abs(s), n))
    ensures Safe(Put(Own(s, n), n, d))
    ensures Abs(Put(Own(s, n), n, d)) == Abs(s)[n := d]
  {
    OwnIsSafe(s, n);
    EntryIsAbs(Own(s, n), n);
    PutIsSafe(Own(s, n), n, d);
    Overwritten(Abs(s), n, Lookup(Abs(s), n), d);
  }

  lemma Overwritten(store: Store, n: Node, d: Data, e: Data)
    ensures store[n := d][n := e] == store[n := e]
  {
  }

  lemma CleanedLast(accepts: set<Node>, nodes: seq<Node>, evenIfRefused: bool)
    requires nodes != []
    ensures var last := |nodes| - 1;
      Cleaned(accepts, nodes, evenIfRefused) == Cleaned(accepts, nodes[..last], evenIfRefused) +
        if evenIfRefused || nodes[last] in accepts then {nodes[last]} else {}
  {
    assert nodes == nodes[..|nodes| - 1] + [nodes[|nodes| - 1]];
  }

  lemma {:induction false} CleanAllIsSafe(accepts: set<Node>, s: State, nodes: seq<Node>, evenIfRefused: bool)
    requires Safe(s)
    ensures Safe(CleanAll(accepts, s, nodes, evenIfRefused))
    ensures Abs(CleanAll(accepts, s, nodes, evenIfRefused)) == Abs(s) - Cleaned(accepts, nodes, evenIfRefused)
  {
    if nodes != [] {
      var last := |nodes| - 1;
      var t := CleanAll(accepts, s, nodes[..last], evenIfRefused);
      CleanAllIsSafe(accepts, s, nodes[..last], evenIfRefused);
      ReleaseIsSafe(t, nodes[last]);
      ReleaseIsRemoval(t, nodes[last]);
      CleanedLast(accepts, nodes, evenIfRefused);
      RemovedTwice(Abs(s), Cleaned(accepts, nodes[..last], evenIfRefused), {nodes[last]});
    }
  }

  lemma RemovedTwice(store: Store, a: set<Node>, b: set<Node>)
    ensures store - a - b == store - (a + b)
  {
  }

  ghost predicate Refines(accepts: set<Node>, s: State, op: Operation) {
    Safe(Step(accepts, s, op)) && Abs(Step(accepts, s, op)) == PlainStep(accepts, Abs(s), op)
  }

  lemma AccessRefines(accepts: set<Node>, s: State, n: Node, key: Key, value: Option<Value>, pvt: bool)
    requires Safe(s)
    ensures Refines(accepts, s, Access(n, key, value, pvt))
  {
    var d := Written(Lookup(Abs(s), n), key, value, pvt);
    EntryIsAbs(s, n);
    if n in accepts && !IsLookup(EntryOf(s, n), key, value, pvt) {
      ReplaceIsSafe(s, n, d);
      assert Step(accepts, s, Access(n, key, value, pvt)) == Put(Own(s, n), n, d);
      assert PlainStep(accepts, Abs(s), Access(n, key, value, pvt)) == Abs(s)[n := d];
    }
  }

  lemma RemoveDataRefines(accepts: set<Node>, s: State, n: Node, names: Option<seq<string>>, pvt: bool)
    requires Safe(s)
    ensures Refines(accepts, s, RemoveData(n, names, pvt))
  {
    EntryIsAbs(s, n);
    if n in accepts && EntryOf(s, n).Some? {
      SettleIsSafe(s, n, Remaining(EntryOf(s, n).value, names, pvt));
    }
  }

  lemma AddHandlerRefines(accepts: set<Node>, s: State, n: Node, eventType: string, origType: string)
    requires Safe(s)
    ensures Refines(accepts, s, AddHandler(n, eventType, origType))
  {
    if n in accepts {
      var d := WithHandler(Lookup(Abs(s), n), eventType, origType);
      ReplaceIsSafe(s, n, d);
      assert Step(accepts, s, AddHandler(n, eventType, origType)) == Put(Own(s, n), n, d);
      assert PlainStep(accepts, Abs(s), AddHandler(n, eventType, origType)) == Abs(s)[n := d];
    }
  }

  lemma RemoveHandlersRefines(accepts: set<Node>, s: State, n: Node, eventType: string)
    requires Safe(s)
    ensures Refines(accepts, s, RemoveHandlers(n, eventType))
  {
    EntryIsAbs(s, n);
    if n in accepts && EntryOf(s, n).Some? {
      SettleIsSafe(s, n, WithoutHandlers(EntryOf(s, n).value, eventType));
    }
  }

  lemma NextGuidRefines(accepts: set<Node>, s: State)
    requires Safe(s)
    ensures Refines(accepts, s, NextGuid)
  {
    assert Abs(s.(guid := s.guid + 1)) == Abs(s);
  }

  // Every operation keeps the numbers safe and does to the entries what it would do without numbers.
  lemma StepRefines(accepts: set<Node>, s: State, op: Operation)
    requires Safe(s)
    ensures Safe(Step(accepts, s, op))
    ensures Abs(Step(accepts, s, op)) == PlainStep(accepts, Abs(s), op)
  {
    assert Refines(accepts, s, op) by {
      match op
      case Access(n, key, value, pvt) => AccessRefines(accepts, s, n, key, value, pvt);
      case RemoveData(n, names, pvt) => RemoveDataRefines(accepts, s, n, names, pvt);
      case AddHandler(n, eventType, origType) => AddHandlerRefines(accepts, s, n, eventType, origType);
      case RemoveHandlers(n, eventType) => RemoveHandlersRefines(accepts, s, n, eventType);
      case Clean(nodes, evenIfRefused) => CleanAllIsSafe(accepts, s, nodes, evenIfRefused);
      case NextGuid => NextGuidRefines(accepts, s);
    }
  }

  // Over every run from the empty store: the numbers stay safe, no number is lost, and what each node finds under
  // its number is what a store without numbers holds for it.
  lemma {:induction false} EveryRun(accepts: set<Node>, ops: seq<Operation>)
    ensures var s := Run(accepts, Empty, ops);
      Safe(s) && Abs(s) == PlainRun(accepts, map[], ops)
  {
    if ops != [] {
      EveryRun(accepts, ops[..|ops| - 1]);
      StepRefines(accepts, Run(accepts, Empty, ops[..|ops| - 1]), ops[|ops| - 1]);
    } else {
      assert Abs(Empty) == map[];
    }
  }

  lemma PlainOther(accepts: set<Node>, store: Store, op: Operation, m: Node)
    requires op.Clean? || op.NextGuid? || op.n != m
    ensures var t := PlainStep(accepts, store, op);
      if op.Clean? && m in op.nodes && (op.evenIfRefused || m in accepts) then m !in t
      else (m in t <==> m in store) && (m in store ==> t[m] == store[m])
  {
  }

  // No operation touches the entry of a node it does not name, and after cleaning a node has neither a number nor
  // an entry.
  lemma OtherNodes(accepts: set<Node>, s: State, op: Operation, m: Node)
    requires Safe(s)
    requires op.Clean? || op.NextGuid? || op.n != m
    ensures EntryOf(Step(accepts, s, op), m) ==
      if op.Clean? && m in op.nodes && (op.evenIfRefused || m in accepts) then None else EntryOf(s, m)
    ensures op.Clean? && m in op.nodes && (op.evenIfRefused || m in accepts) ==>
      m !in Step(accepts, s, op).expando
  {
    var t := Step(accepts, s, op);
    StepRefines(accepts, s, op);
    PlainOther(accepts, Abs(s), op, m);
    EntryIsAbs(s, m);
    EntryIsAbs(t, m);
  }

  lemma {:induction false} CleaningIssuesNothing(accepts: set<Node>, s: State, nodes: seq<Node>, evenIfRefused: bool)
    ensures var t := CleanAll(accepts, s, nodes, evenIfRefused);
      t.issued == s.issued && t.guid == s.guid
  {
    if nodes != [] {
      CleaningIssuesNothing(accepts, s, nodes[..|nodes| - 1], evenIfRefused);
    }
  }

  /** The numbers an operation issues were free, or come from the counter. */
  lemma NewlyIssued(accepts: set<Node>, s: State, op: Operation, id: nat)
    requires Safe(s) && id < s.guid && id !in s.issued
    ensures var t := Step(accepts, s, op);
      id < t.guid && id !in t.issued
  {
    if op.Clean? {
      CleaningIssuesNothing(accepts, s, op.nodes, op.evenIfRefused);
    } else if op.Access? || op.AddHandler? {
      if s.deletedIds != [] {
        assert s.deletedIds[|s.deletedIds| - 1] in s.issued;
      }
    }
  }

  /** A number taken from the counter for something else is on no node, ever. */
  lemma {:induction false} TakenForGood(accepts: set<Node>, s: State, ops: seq<Operation>)
    requires Safe(s)
    ensures var t := Run(accepts, Step(accepts, s, NextGuid), ops);
      && Safe(t)
      && s.guid < t.guid && s.guid !in t.issued
      && forall n :: n in t.expando ==> t.expando[n] != s.guid
  {
    var taken := Step(accepts, s, NextGuid);
    StepRefines(accepts, s, NextGuid);
    if ops != [] {
      var t := Run(accepts, taken, ops[..|ops| - 1]);
      TakenForGood(accepts, s, ops[..|ops| - 1]);
      StepRefines(accepts, t, ops[|ops| - 1]);
      NewlyIssued(accepts, t, ops[|ops| - 1], s.guid);
    }
  }

  ////////// The data store

  lemma SettleAgain(s: State, n: Node, e: Data, d: Option<Data>)
    requires Safe(s) && EntryOf(s, n).Some?
    ensures EntryOf(Put(s, n, e), n) == Some(e)
    ensures Settle(Put(s, n, e), n, d) == Settle(s, n, d)
    ensures Put(s, n, EntryOf(s, n).value) == s
  {
    assert s.cache[Id(s, n) := e] - {Id(s, n)} == s.cache - {Id(s, n)};
  }

  lemma NoHandlers(accepts: set<Node>, s: State, n: Node, eventType: string)
    requires Safe(s)
    requires n !in accepts || EntryOf(s, n).None? || IsEmptyData(EntryOf(s, n).value) || EventsOf(EntryOf(s, n).value).None?
    ensures Step(accepts, s, RemoveHandlers(n, eventType)) == s
  {
    if EntryOf(s, n).Some? {
      SettleAgain(s, n, map[], None);
    }
  }

  // A removal of handlers while a node is being cleaned. Its entry may be edited or gone, and that is all.
  lemma InnerRemoval(accepts: set<Node>, s: State, n: Node, left: Option<Data>, eventType: string)
    returns (next: Option<Data>)
    requires Safe(s) && EntryOf(s, n).Some?
    ensures Step(accepts, Settle(s, n, left), RemoveHandlers(n, eventType)) == Settle(s, n, next)
  {
    next := left;
    if left.None? {
      ReleaseIsSafe(s, n);
      NoHandlers(accepts, Release(s, n), n, eventType);
    } else if n in accepts {
      next := WithoutHandlers(left.value, eventType);
      SettleAgain(s, n, left.value, next);
    }
  }

  lemma RemoveOneMore(d: Data, names: seq<string>, name: string)
    ensures Remove(d, names + [name]) == Remove(d, names) - {name}
    ensures Remove(d, []) == d
  {
  }

  lemma WithoutPublic(d: Data, e: Data)
    requires e == d || ("data" in e && e == d["data" := e["data"]])
    ensures e - {"data"} == Remove(d, ["data"])
  {
  }

  lemma AccessStep(accepts: set<Node>, s: State, n: Node, key: Key, value: Option<Value>, pvt: bool)
    requires Safe(s) && n in accepts && !IsLookup(EntryOf(s, n), key, value, pvt)
    ensures EntryOf(Own(s, n), n).Some?
    ensures var t := Step(accepts, s, Access(n, key, value, pvt));
      && t == Put(Own(s, n), n, Written(EntryOf(Own(s, n), n).value, key, value, pvt))
      && EntryOf(t, n) == Some(Written(EntryOf(Own(s, n), n).value, key, value, pvt))
  {
    OwnIsSafe(s, n);
  }

  lemma WholeAccess(accepts: set<Node>, s: State, n: Node)
    requires Safe(s) && n in accepts
    ensures Step(accepts, s, Access(n, Whole, None, true)) == Own(s, n) && EntryOf(Own(s, n), n).Some?
  {
    OwnIsSafe(s, n);
    SettleAgain(Own(s, n), n, map[], None);
  }

  lemma CleanOne(accepts: set<Node>, s: State, n: Node)
    ensures CleanAll(accepts, s, [n], true) == Release(s, n)
  {
    assert [n][..0] == [];
  }

  ghost predicate HasHandlers(s: State, n: Node) {
    EntryOf(s, n).Some? && EventsOf(EntryOf(s, n).value).Some?
  }

  // Whether cleaning some of the nodes has handlers to remove.
  ghost function Load(s: State, nodes: seq<Node>): nat {
    if exists n <- nodes :: HasHandlers(s, n) then 1 else 0
  }

  lemma LoadOfOne(s: State, n: Node)
    ensures Load(s, [n]) == if HasHandlers(s, n) then 1 else 0
  {
    assert n in [n];
  }

  // Dropping an entry whose names were just removed.
  lemma Dropping(accepts: set<Node>, s: State, n: Node, left: Data)
    requires Safe(s) && EntryOf(s, n).Some?
    ensures Safe(Put(s, n, left))
    ensures Step(accepts, Put(s, n, left), Clean([n], true)) == Release(s, n)
  {
    PutIsSafe(s, n, left);
    SettleAgain(s, n, left, None);
    CleanOne(accepts, Put(s, n, left), n);
  }

  lemma LoadAfterPut(s: State, n: Node, left: Data)
    requires Safe(s) && EntryOf(s, n).Some?
    ensures Load(Put(s, n, left), [n]) == if EventsOf(left).Some? then 1 else 0
    ensures Load(s, [n]) == if EventsOf(EntryOf(s, n).value).Some? then 1 else 0
  {
    LoadOfOne(s, n);
    LoadOfOne(Put(s, n, left), n);
    SettleAgain(s, n, left, None);
  }

  // Removing the last handlers: what becomes of the entry, step by step.
  lemma HandlersRemoved(accepts: set<Node>, s: State, n: Node, eventType: string, e: Data)
    requires Safe(s) && n in accepts && EntryOf(s, n).Some?
    requires var d := EntryOf(s, n).value;
      && !IsEmptyData(d) && EventsOf(d).Some?
      && var events := EventsWithout(EventsOf(d).value, eventType);
      && var kept := d["events" := Handlers(events)];
      && e == if events == map[] then kept - {"handle"} else kept
    ensures var events := EventsWithout(EventsOf(EntryOf(s, n).value).value, eventType);
      Step(accepts, s, RemoveHandlers(n, eventType)) ==
        if events == map[] then Step(accepts, Put(s, n, e), RemoveData(n, Some(["events"]), true)) else Put(s, n, e)
  {
    SettleAgain(s, n, e, Remaining(e, Some(["events"]), true));
  }

  class DataStore {
    // The nodes that may carry data, and the event types with special handling.
    const accepts: set<Node>
    const special: set<string>

    var expando: map<Node, nat>
    var cache: map<nat, Data>
    var deletedIds: seq<nat>
    var guid: nat
    ghost var issued: set<nat>

    ghost function View(): State
      reads this
    {
      State(expando, cache, deletedIds, guid, issued)
    }

    constructor (accepts: set<Node>, special: set<string>)
      ensures this.accepts == accepts && this.special == special
      ensures View() == Empty && Safe(View())
    {
      this.accepts, this.special := accepts, special;
      expando, cache, deletedIds, guid, issued := map[], map[], [], 1, {};
    }

    function IdOn(n: Node): nat
      reads this
    {
      if n in expando then expando[n] else 0
    }

    method Allocate(n: Node) returns (id: nat)
      requires Safe(View())
      modifies this
      ensures View() == Own(old(View()), n) && id == Id(View(), n)
    {
      id := IdOn(n);
      if id == 0 {
        if |deletedIds| > 0 {
          id := deletedIds[|deletedIds| - 1];
          deletedIds := deletedIds[..|deletedIds| - 1];
        }
        if id == 0 {
          id := guid;
          guid := guid + 1;
        }
        expando := expando[n := id];
        issued := issued + {id};
      }
      if id !in cache {
        cache := cache[id := map[]];
      }
    }

    method InternalData(n: Node, key: Key, value: Option<Value>, pvt: bool) returns (ret: Option<Value>)
      requires Safe(View())
      modifies this
      ensures View() == Step(accepts, old(View()), Access(n, key, value, pvt))
      ensures ret == Answer(accepts, old(View()), n, key, value, pvt)
    {
      ret := None;
      if n !in accepts {
        return;
      }
      var id := IdOn(n);
      if (id !in cache || (!pvt && "data" !in cache[id])) && key.Named? && value.None? {
        return;
      }
      ghost var s := View();
      AccessStep(accepts, s, n, key, value, pvt);
      id := Allocate(n);
      var d;
      d, ret := Change(cache[id], key, value, pvt);
      cache := cache[id := d];
      assert View() == Put(Own(s, n), n, d);
    }

    static method Change(d: Data, key: Key, value: Option<Value>, pvt: bool) returns (e: Data, found: Option<Value>)
      ensures e == Written(d, key, value, pvt)
      ensures found == Found(e, key, pvt)
    {
      var thisCache := d;
      if !pvt {
        thisCache := if PublicOf(d).Some? then PublicOf(d).value else map[];
      }
      if key.Extend? {
        thisCache := thisCache + key.fields;
      }
      if value.Some? && key.Named? {
        thisCache := thisCache[key.name := value.value];
      }
      e := if pvt then thisCache else d["data" := Object(thisCache)];
      found := if key.Named? && key.name in thisCache then Some(thisCache[key.name]) else None;
    }

    static method RemoveNames(fields: Data, names: seq<string>) returns (left: Data)
      ensures left == Remove(fields, names)
    {
      left := fields;
      RemoveOneMore(fields, [], "");
      for i := 0 to |names|
        invariant left == Remove(fields, names[..i])
      {
        RemoveOneMore(fields, names[..i], names[i]);
        assert names[..i + 1] == names[..i] + [names[i]];
        left := left - {names[i]};
      }
      assert names[..|names|] == names;
    }

    // What removing names leaves in a data object, and whether the object is to be dropped.
    static method Strip(d: Data, names: Option<seq<string>>, pvt: bool) returns (left: Data, drop: bool)
      ensures Remaining(d, names, pvt) == if drop then None else Some(left)
      ensures EventsOf(left).Some? ==> EventsOf(d).Some? && (pvt ==> names != Some(["events"]))
    {
      left := d;
      if names.Some? && (pvt || PublicOf(d).Some?) {
        var thisCache := RemoveNames(if pvt then d else PublicOf(d).value, names.value);
        left := if pvt then thisCache else d["data" := Object(thisCache)];
        if if pvt then !IsEmptyData(thisCache) else thisCache != map[] {
          return left, false;
        }
      }
      if !pvt {
        WithoutPublic(d, left);
        left := left - {"data"};
        if !IsEmptyData(left) {
          return left, false;
        }
      }
      return left, true;
    }

    method InternalRemoveData(n: Node, names: Option<seq<string>>, pvt: bool)
      requires Safe(View())
      modifies this
      ensures View() == Step(accepts, old(View()), RemoveData(n, names, pvt))
      decreases Load(View(), [n]),
        if pvt && names == Some(["events"]) && Load(View(), [n]) == 1 then 0 else 4
    {
      ghost var s := View();
      var id := IdOn(n);
      if n !in accepts || id !in cache {
        return;
      }
      var left, drop := Strip(cache[id], names, pvt);
      cache := cache[id := left];
      assert View() == Put(s, n, left);
      if drop {
        Dropping(accepts, s, n, left);
        LoadAfterPut(s, n, left);
        CleanData([n], true);
      }
    }

    method CleanData(nodes: seq<Node>, evenIfRefused: bool)
      requires Safe(View())
      modifies this
      ensures View() == Step(accepts, old(View()), Clean(nodes, evenIfRefused))
      decreases Load(View(), nodes), 3
    {
      ghost var s := View();
      for i := 0 to |nodes|
        invariant View() == CleanAll(accepts, s, nodes[..i], evenIfRefused)
      {
        var n := nodes[i];
        ghost var t := View();
        assert nodes[..i + 1][..i] == nodes[..i];
        CleanAllIsSafe(accepts, s, nodes[..i], evenIfRefused);
        EntryIsAbs(s, n);
        EntryIsAbs(t, n);
        LoadOfOne(t, n);
        assert HasHandlers(t, n) ==> HasHandlers(s, n);
        if evenIfRefused || n in accepts {
          CleanNode(n);
        }
      }
      assert nodes[..|nodes|] == nodes;
    }

    // One round of the loop of cleanData. Removing the last handlers of an event type with special handling can
    // remove the whole entry, and put the number on the free list, before this method gets to it.
    method CleanNode(n: Node)
      requires Safe(View())
      modifies this
      ensures View() == Release(old(View()), n)
      decreases Load(View(), [n]), 2
    {
      ghost var s := View();
      var id := IdOn(n);
      if id in cache {
        if EventsOf(cache[id]).Some? {
          var types := EventsOf(cache[id]).value.Keys;
          ghost var left := Some(cache[id]);
          SettleAgain(s, n, cache[id], None);
          LoadOfOne(s, n);
          while types != {}
            invariant View() == Settle(s, n, left)
          {
            var eventType :| eventType in types;
            types := types - {eventType};
            if eventType in special {
              SettleIsSafe(s, n, left);
              ghost var next := InnerRemoval(accepts, s, n, left, eventType);
              EventRemove(n, eventType);
              left := next;
            }
          }
          if left.Some? {
            SettleAgain(s, n, left.value, None);
          }
        }
        if id in cache {
          cache := cache - {id};
          expando := expando - {n};
          deletedIds := deletedIds + [id];
        }
      }
    }

    // event.remove for one type, without a handler, namespaces or a selector.
    method EventRemove(n: Node, eventType: string)
      requires Safe(View())
      modifies this
      ensures View() == Step(accepts, old(View()), RemoveHandlers(n, eventType))
      decreases Load(View(), [n]), 1
    {
      ghost var s := View();
      var id := IdOn(n);
      if n !in accepts || id !in cache || IsEmptyData(cache[id]) || EventsOf(cache[id]).None? {
        NoHandlers(accepts, s, n, eventType);
        return;
      }
      var d := cache[id];
      var events := EventsWithout(EventsOf(d).value, eventType);
      var e := d["events" := Handlers(events)];
      if events == map[] {
        e := e - {"handle"};
      }
      cache := cache[id := e];
      assert View() == Put(s, n, e);
      HandlersRemoved(accepts, s, n, eventType, e);
      if events == map[] {
        PutIsSafe(s, n, e);
        LoadAfterPut(s, n, e);
        InternalRemoveData(n, Some(["events"]), true);
      }
    }

    // The part of event.add that stores a handler; the numbers that handlers get come from TakeGuid.
    method EventAdd(n: Node, eventType: string, origType: string)
      requires Safe(View())
      modifies this
      ensures View() == Step(accepts, old(View()), AddHandler(n, eventType, origType))
    {
      ghost var s := View();
      var _ := InternalData(n, Whole, None, true);
      if n !in accepts {
        return;
      }
      WholeAccess(accepts, s, n);
      var id := IdOn(n);
      var e := Hook(cache[id], eventType, origType);
      cache := cache[id := e];
    }

    static method Hook(d: Data, eventType: string, origType: string) returns (e: Data)
      ensures e == WithHandler(d, eventType, origType)
    {
      var events := if EventsOf(d).Some? then EventsOf(d).value else map[];
      var handlers := if eventType in events then events[eventType] else [];
      e := d["events" := Handlers(events[eventType := handlers + [origType]])];
      if "handle" !in e {
        e := e["handle" := Plain(0)];
      }
    }

    method TakeGuid() returns (taken: nat)
      requires Safe(View())
      modifies this
      ensures View() == Step(accepts, old(View()), NextGuid)
      ensures taken == old(guid) && taken !in issued
    {
      taken := guid;
      guid := guid + 1;
    }

    // Any run of calls keeps the numbers safe and leaves in the cache what a store without numbers would hold.
    method Replay(ops: seq<Operation>)
      requires View() == Empty
      modifies this
      ensures Safe(View()) && View() == Run(accepts, Empty, ops)
      ensures Abs(View()) == PlainRun(accepts, map[], ops)
    {
      for i := 0 to |ops|
        invariant View() == Run(accepts, Empty, ops[..i])
      {
        EveryRun(accepts, ops[..i]);
        match ops[i] {
          case Access(n, key, value, pvt) => var _ := InternalData(n, key, value, pvt);
          case RemoveData(n, names, pvt) => InternalRemoveData(n, names, pvt);
          case AddHandler(n, eventType, origType) => EventAdd(n, eventType, origType);
          case RemoveHandlers(n, eventType) => EventRemove(n, eventType);
          case Clean(nodes, evenIfRefused) => CleanData(nodes, evenIfRefused);
          case NextGuid => var _ := TakeGuid();
        }
        assert ops[..i + 1][..i] == ops[..i];
      }
      assert ops[..|ops|] == ops;
      EveryRun(accepts, ops);
    }
  }
}
