// What the per-element store is for: what was written is read, what was removed is gone, and nothing else changes.
module DataLaws {
  import opened Wrappers
  import opened DataIds

  // A read by name, as a caller makes it.
  function Get(accepts: set<Node>, s: State, n: Node, name: string, pvt: bool): Option<Value> {
    Answer(accepts, s, n, Named(name), None, pvt)
  }

  // The same name in a data object, on either side.
  function In(d: Option<Data>, name: string, pvt: bool): Option<Value> {
    if d.None? then None
    else if pvt then if name in d.value then Some(d.value[name]) else None
    else if "data" in d.value && d.value["data"].Object? && name in d.value["data"].fields then Some(d.value["data"].fields[name])
    else None
  }

  // The private name "data" holds the public data, if anything.
  predicate Proper(d: Option<Data>) {
    d.Some? && "data" in d.value ==> d.value["data"].Object?
  }

  // A read finds what is stored,
  lemma GetIs(accepts: set<Node>, s: State, n: Node, name: string, pvt: bool)
    requires Safe(s) && n in accepts && Proper(EntryOf(s, n))
    ensures Get(accepts, s, n, name, pvt) == In(EntryOf(s, n), name, pvt)
  {
    if !IsLookup(EntryOf(s, n), Named(name), None, pvt) {
      AccessStep(accepts, s, n, Named(name), None, pvt);
      OwnIsSafe(s, n);
    }
  }

  // and changes nothing.
  lemma ReadOnly(accepts: set<Node>, s: State, n: Node, name: string, pvt: bool)
    requires Safe(s) && n in accepts && Proper(EntryOf(s, n))
    ensures Step(accepts, s, Access(n, Named(name), None, pvt)) == s
  {
    if EntryOf(s, n).Some? && !IsLookup(EntryOf(s, n), Named(name), None, pvt) {
      AccessStep(accepts, s, n, Named(name), None, pvt);
      var d := EntryOf(s, n).value;
      assert Written(d, Named(name), None, pvt) == d;
      assert Put(s, n, d) == s;
    }
  }

  function DataOf(s: State, n: Node): Data {
    if EntryOf(s, n).Some? then EntryOf(s, n).value else map[]
  }

  // The entry that an operation leaves, by way of the store without numbers.
  lemma EntryAfter(accepts: set<Node>, s: State, op: Operation, m: Node)
    requires Safe(s)
    ensures var store := PlainStep(accepts, Abs(s), op);
      Safe(Step(accepts, s, op)) && EntryOf(Step(accepts, s, op), m) == if m in store then Some(store[m]) else None
    ensures EntryOf(s, m) == if m in Abs(s) then Some(Abs(s)[m]) else None
  {
    StepRefines(accepts, s, op);
    EntryIsAbs(Step(accepts, s, op), m);
    EntryIsAbs(s, m);
  }

  lemma AccessEntry(accepts: set<Node>, s: State, n: Node, key: Key, value: Option<Value>, pvt: bool)
    requires Safe(s) && n in accepts && (key.Named? ==> value.Some?)
    ensures var t := Step(accepts, s, Access(n, key, value, pvt));
      Safe(t) && EntryOf(t, n) == Some(Written(DataOf(s, n), key, value, pvt))
  {
    EntryAfter(accepts, s, Access(n, key, value, pvt), n);
  }

  // The two reads that a law compares.
  lemma BothGets(accepts: set<Node>, s: State, t: State, n: Node, name: string, pvt: bool)
    requires Safe(s) && Safe(t) && n in accepts && Proper(EntryOf(s, n)) && Proper(EntryOf(t, n))
    ensures Get(accepts, s, n, name, pvt) == In(EntryOf(s, n), name, pvt)
    ensures Get(accepts, t, n, name, pvt) == In(EntryOf(t, n), name, pvt)
  {
    GetIs(accepts, s, n, name, pvt);
    GetIs(accepts, t, n, name, pvt);
  }

  lemma WrittenIn(d: Option<Data>, key: string, value: Value, pvt: bool, name: string, side: bool)
    requires Proper(d) && (pvt && key == "data" ==> value.Object?)
    ensures var e := Some(Written(if d.Some? then d.value else map[], Named(key), Some(value), pvt));
      && Proper(e)
      && (pvt == side || (if pvt then key else name) != "data" ==>
            In(e, name, side) == if pvt == side && name == key then Some(value) else In(d, name, side))
  {
  }

  // What was written is read, on the side it was written on; every other name reads as before, on both sides. The
  // public data are a private name themselves.
  lemma WriteThenRead(accepts: set<Node>, s: State, n: Node, key: string, value: Value, pvt: bool, name: string, side: bool)
    requires Safe(s) && n in accepts && Proper(EntryOf(s, n)) && (pvt && key == "data" ==> value.Object?)
    requires pvt == side || (if pvt then key else name) != "data"
    ensures var t := Step(accepts, s, Access(n, Named(key), Some(value), pvt));
      && Proper(EntryOf(t, n))
      && Get(accepts, t, n, name, side) == if pvt == side && name == key then Some(value) else Get(accepts, s, n, name, side)
  {
    AccessEntry(accepts, s, n, Named(key), Some(value), pvt);
    WrittenIn(EntryOf(s, n), key, value, pvt, name, side);
    BothGets(accepts, s, Step(accepts, s, Access(n, Named(key), Some(value), pvt)), n, name, side);
  }

  lemma FoundWritten(d: Data, key: string, value: Value, pvt: bool)
    ensures Found(Written(d, Named(key), Some(value), pvt), Named(key), pvt) == Some(value)
  {
  }

  // A write returns what it wrote.
  lemma WriteAnswers(accepts: set<Node>, s: State, n: Node, key: string, value: Value, pvt: bool)
    requires Safe(s) && n in accepts
    ensures Answer(accepts, s, n, Named(key), Some(value), pvt) == Some(value)
  {
    AccessEntry(accepts, s, n, Named(key), Some(value), pvt);
    FoundWritten(DataOf(s, n), key, value, pvt);
    assert !IsLookup(EntryOf(s, n), Named(key), Some(value), pvt);
  }

  lemma ExtendedIn(d: Option<Data>, fields: Data, pvt: bool, name: string, side: bool)
    requires Proper(d) && (pvt ==> Proper(Some(fields)))
    ensures var e := Some(Written(if d.Some? then d.value else map[], Extend(fields), None, pvt));
      && Proper(e)
      && (pvt == side || (if pvt then "data" !in fields else name != "data") ==>
            In(e, name, side) == if pvt == side && name in fields then Some(fields[name]) else In(d, name, side))
  {
  }

  // An object handed over is copied name by name.
  lemma ExtendThenRead(accepts: set<Node>, s: State, n: Node, fields: Data, pvt: bool, name: string, side: bool)
    requires Safe(s) && n in accepts && Proper(EntryOf(s, n)) && (pvt ==> Proper(Some(fields)))
    requires pvt == side || (if pvt then "data" !in fields else name != "data")
    ensures var t := Step(accepts, s, Access(n, Extend(fields), None, pvt));
      && Proper(EntryOf(t, n))
      && Get(accepts, t, n, name, side) == if pvt == side && name in fields then Some(fields[name]) else Get(accepts, s, n, name, side)
  {
    AccessEntry(accepts, s, n, Extend(fields), None, pvt);
    ExtendedIn(EntryOf(s, n), fields, pvt, name, side);
    BothGets(accepts, s, Step(accepts, s, Access(n, Extend(fields), None, pvt)), n, name, side);
  }

  lemma WholeIn(d: Option<Data>, pvt: bool, name: string, side: bool)
    requires Proper(d) && (side && name == "data" ==> pvt)
    ensures var e := Some(Written(if d.Some? then d.value else map[], Whole, None, pvt));
      Proper(e) && In(e, name, side) == In(d, name, side)
  {
  }

  // Asking for the whole object changes nothing that can be read, but for an empty public object it may make.
  lemma WholeThenRead(accepts: set<Node>, s: State, n: Node, pvt: bool, name: string, side: bool)
    requires Safe(s) && n in accepts && Proper(EntryOf(s, n)) && (side && name == "data" ==> pvt)
    ensures var t := Step(accepts, s, Access(n, Whole, None, pvt));
      Proper(EntryOf(t, n)) && Get(accepts, t, n, name, side) == Get(accepts, s, n, name, side)
  {
    AccessEntry(accepts, s, n, Whole, None, pvt);
    WholeIn(EntryOf(s, n), pvt, name, side);
    BothGets(accepts, s, Step(accepts, s, Access(n, Whole, None, pvt)), n, name, side);
  }

  lemma NothingElse(d: Data, name: string)
    requires IsEmptyData(d) && name in d
    ensures name == "toJSON" || (name == "data" && IsEmptyObject(d[name]))
  {
  }

  lemma KeptIn(d: Data, names: seq<string>, name: string)
    ensures name in Remove(d, names) <==> name in d && name !in names
    ensures name in Remove(d, names) ==> Remove(d, names)[name] == d[name]
  {
  }

  // What is left of a data object when it is dropped as nothing but empty.
  lemma Dropped(d: Data, name: string, pvt: bool)
    requires Proper(Some(d)) && IsEmptyData(d) && (pvt ==> name != "toJSON" && name != "data")
    ensures In(Some(d), name, pvt) == None
  {
    if pvt && name in d {
      NothingElse(d, name);
    } else if "data" in d {
      NothingElse(d, "data");
    }
  }

  lemma RemainingPrivate(d: Data, names: seq<string>, name: string)
    requires Proper(Some(d))
    ensures var r := Remaining(d, Some(names), true);
      && Proper(r)
      && (name != "toJSON" && name != "data" ==> In(r, name, true) == if name in names then None else In(Some(d), name, true))
      && ("data" !in names ==> In(r, name, false) == In(Some(d), name, false))
  {
    var left := Remove(d, names);
    KeptIn(d, names, name);
    KeptIn(d, names, "data");
    if IsEmptyData(left) {
      Dropped(left, name, false);
      if name != "toJSON" && name != "data" { Dropped(left, name, true); }
    }
  }

  lemma RemainingPublic(d: Data, names: seq<string>, name: string)
    requires Proper(Some(d))
    ensures var r := Remaining(d, Some(names), false);
      && Proper(r)
      && In(r, name, false) == (if name in names then None else In(Some(d), name, false))
      && (name != "toJSON" && name != "data" ==> In(r, name, true) == In(Some(d), name, true))
  {
    var rest := Remove(d, ["data"]);
    KeptIn(d, ["data"], name);
    KeptIn(d, ["data"], "data");
    if PublicOf(d).Some? {
      KeptIn(PublicOf(d).value, names, name);
    }
    if IsEmptyData(rest) && name != "toJSON" && name != "data" {
      Dropped(rest, name, true);
    }
  }

  lemma RemovalEntry(accepts: set<Node>, s: State, n: Node, names: Option<seq<string>>, pvt: bool)
    requires Safe(s) && n in accepts
    ensures var t := Step(accepts, s, RemoveData(n, names, pvt));
      Safe(t) && EntryOf(t, n) == if EntryOf(s, n).Some? then Remaining(EntryOf(s, n).value, names, pvt) else None
  {
    EntryAfter(accepts, s, RemoveData(n, names, pvt), n);
  }

  // Names that were removed are gone, on the side they were removed from; every other name reads as before, on both
  // sides. Two private names are left aside: public data that are empty, and "toJSON", go when nothing else is left.
  lemma RemoveThenRead(accepts: set<Node>, s: State, n: Node, names: seq<string>, pvt: bool, name: string, side: bool)
    requires Safe(s) && n in accepts && Proper(EntryOf(s, n))
    requires side ==> name != "toJSON" && name != "data"
    requires pvt && !side ==> "data" !in names
    ensures var t := Step(accepts, s, RemoveData(n, Some(names), pvt));
      && Proper(EntryOf(t, n))
      && Get(accepts, t, n, name, side) == if pvt == side && name in names then None else Get(accepts, s, n, name, side)
  {
    RemovalEntry(accepts, s, n, Some(names), pvt);
    if EntryOf(s, n).Some? {
      if pvt { RemainingPrivate(EntryOf(s, n).value, names, name); } else { RemainingPublic(EntryOf(s, n).value, names, name); }
    }
    BothGets(accepts, s, Step(accepts, s, RemoveData(n, Some(names), pvt)), n, name, side);
  }

  lemma RemainingWhole(d: Data, pvt: bool, name: string, side: bool)
    requires Proper(Some(d)) && (side && !pvt ==> name != "toJSON" && name != "data")
    ensures var r := Remaining(d, None, pvt);
      Proper(r) && In(r, name, side) == if pvt || !side then None else In(Some(d), name, side)
  {
    var rest := Remove(d, ["data"]);
    KeptIn(d, ["data"], name);
    KeptIn(d, ["data"], "data");
    if IsEmptyData(rest) && name != "toJSON" && name != "data" {
      Dropped(rest, name, true);
    }
  }

  // Removing without names removes the public data as a whole, or everything.
  lemma RemoveAllThenRead(accepts: set<Node>, s: State, n: Node, pvt: bool, name: string, side: bool)
    requires Safe(s) && n in accepts && Proper(EntryOf(s, n)) && (side && !pvt ==> name != "toJSON" && name != "data")
    ensures var t := Step(accepts, s, RemoveData(n, None, pvt));
      && Proper(EntryOf(t, n))
      && Get(accepts, t, n, name, side) == if pvt || !side then None else Get(accepts, s, n, name, side)
  {
    RemovalEntry(accepts, s, n, None, pvt);
    if EntryOf(s, n).Some? { RemainingWhole(EntryOf(s, n).value, pvt, name, side); }
    BothGets(accepts, s, Step(accepts, s, RemoveData(n, None, pvt)), n, name, side);
  }

  // Operations on one node leave what is read of the others.
  lemma OthersRead(accepts: set<Node>, s: State, op: Operation, m: Node, name: string, pvt: bool)
    requires Safe(s) && m in accepts && Proper(EntryOf(s, m))
    requires if op.Clean? then m !in op.nodes else op.NextGuid? || op.n != m
    ensures Get(accepts, Step(accepts, s, op), m, name, pvt) == Get(accepts, s, m, name, pvt)
  {
    OtherNodes(accepts, s, op, m);
    StepRefines(accepts, s, op);
    BothGets(accepts, s, Step(accepts, s, op), m, name, pvt);
  }

  // An entry goes, and its number with it, exactly when what is left of it is nothing but empty.
  lemma DropsWhenEmpty(accepts: set<Node>, s: State, n: Node, names: seq<string>, pvt: bool)
    requires Safe(s) && n in accepts && EntryOf(s, n).Some? && Proper(EntryOf(s, n))
    ensures var d, t := EntryOf(s, n).value, Step(accepts, s, RemoveData(n, Some(names), pvt));
      && (EntryOf(t, n).None? <==> n !in t.expando)
      && (EntryOf(t, n).None? <==>
            if pvt then forall name :: name in d && name !in names ==> name == "toJSON" || (name == "data" && In(EntryOf(s, n), name, true) == Some(Object(map[])))
            else (forall name :: name in d ==> name == "toJSON" || name == "data") && forall name :: In(EntryOf(s, n), name, false).Some? ==> name in names)
  {
    var d := EntryOf(s, n).value;
    RemovalEntry(accepts, s, n, Some(names), pvt);
    EntryIsAbs(Step(accepts, s, RemoveData(n, Some(names), pvt)), n);
    if pvt { DroppedPrivate(d, names); } else { DroppedPublic(d, names); }
  }

  lemma DroppedPrivate(d: Data, names: seq<string>)
    requires Proper(Some(d))
    ensures Remaining(d, Some(names), true).None? <==>
      forall name :: name in d && name !in names ==> name == "toJSON" || (name == "data" && In(Some(d), name, true) == Some(Object(map[])))
  {
    var left := Remove(d, names);
    assert forall name :: name in left <==> name in d && name !in names;
    assert forall name :: name in left ==> left[name] == d[name];
    assert IsEmptyData(left) <==> forall name :: name in left ==> name == "toJSON" || (name == "data" && IsEmptyObject(d[name]));
  }

  lemma DroppedPublic(d: Data, names: seq<string>)
    requires Proper(Some(d))
    ensures Remaining(d, Some(names), false).None? <==>
      (forall name :: name in d ==> name == "toJSON" || name == "data") && forall name :: In(Some(d), name, false).Some? ==> name in names
  {
    var rest := Remove(d, ["data"]);
    assert forall name :: name in rest <==> name in d && name != "data";
    assert IsEmptyData(rest) <==> forall name :: name in d && name != "data" ==> name == "toJSON";
    if PublicOf(d).Some? {
      var fields := PublicOf(d).value;
      var left := Remove(fields, names);
      assert forall name :: name in left <==> name in fields && name !in names;
      assert left == map[] <==> forall name :: name in fields ==> name in names;
      assert forall name :: In(Some(d), name, false).Some? <==> name in fields;
    }
  }

  // A new number is made only when none is free.
  lemma FreeNumbersFirst(accepts: set<Node>, s: State, op: Operation)
    requires Safe(s) && !op.NextGuid? && s.deletedIds != []
    ensures Step(accepts, s, op).guid == s.guid && Step(accepts, s, op).issued == s.issued
  {
    if op.Access? || op.AddHandler? {
      OwnFromFree(s, op.n);
    } else if op.Clean? {
      CleaningIssuesNothing(accepts, s, op.nodes, op.evenIfRefused);
    }
  }

  lemma OwnFromFree(s: State, n: Node)
    requires Safe(s) && s.deletedIds != []
    ensures Own(s, n).guid == s.guid && Own(s, n).issued == s.issued
  {
    var freed := s.deletedIds[|s.deletedIds| - 1];
    assert freed in s.deletedIds && freed in s.issued;
    assert s.issued + {freed} == s.issued;
  }

  ////////// Handlers

  // The handlers that an event of this type finds on a node.
  function HandlersOf(s: State, n: Node, eventType: string): seq<string> {
    TypeIn(EntryOf(s, n), eventType)
  }

  function TypeIn(d: Option<Data>, eventType: string): seq<string> {
    if d.Some? && "events" in d.value && d.value["events"].Handlers? && eventType in d.value["events"].events
    then d.value["events"].events[eventType] else []
  }

  lemma WithHandlerIn(d: Option<Data>, eventType: string, origType: string, other: string, name: string, pvt: bool)
    requires Proper(d)
    ensures var e := Some(WithHandler(if d.Some? then d.value else map[], eventType, origType));
      && Proper(e) && In(e, "handle", true).Some?
      && TypeIn(e, other) == TypeIn(d, other) + (if other == eventType then [origType] else [])
      && (!pvt || (name != "events" && name != "handle") ==> In(e, name, pvt) == In(d, name, pvt))
  {
  }

  // A new handler comes behind those of its type; other types and other data are as before.
  lemma AddThenHandlers(accepts: set<Node>, s: State, n: Node, eventType: string, origType: string, other: string, name: string, pvt: bool)
    requires Safe(s) && n in accepts && Proper(EntryOf(s, n)) && (pvt ==> name != "events" && name != "handle")
    ensures var t := Step(accepts, s, AddHandler(n, eventType, origType));
      && HandlersOf(t, n, other) == HandlersOf(s, n, other) + (if other == eventType then [origType] else [])
      && Get(accepts, t, n, name, pvt) == Get(accepts, s, n, name, pvt)
  {
    EntryAfter(accepts, s, AddHandler(n, eventType, origType), n);
    WithHandlerIn(EntryOf(s, n), eventType, origType, other, name, pvt);
    BothGets(accepts, s, Step(accepts, s, AddHandler(n, eventType, origType)), n, name, pvt);
  }

  lemma Glue<T>(a: seq<T>, b: seq<T>, c: seq<T>)
    ensures a + (b + c) == a + b + c
  {
  }

  lemma {:induction false} OthersConcat(a: seq<string>, b: seq<string>, origType: string)
    ensures Others(a + b, origType) == Others(a, origType) + Others(b, origType)
  {
    if a == [] {
      assert a + b == b;
    } else {
      assert (a + b)[0] == a[0] && (a + b)[1..] == a[1..] + b;
      OthersConcat(a[1..], b, origType);
      Glue(if a[0] == origType then [] else [a[0]], Others(a[1..], origType), Others(b, origType));
    }
  }

  // The handlers that are left, handler by handler: those asked for under other types, in order.
  lemma OthersAre(a: seq<string>, b: seq<string>, h: string, origType: string)
    ensures Others(a + b, origType) == Others(a, origType) + Others(b, origType)
    ensures Others([h], origType) == if h == origType then [] else [h]
  {
    OthersConcat(a, b, origType);
    assert [h][1..] == [];
  }

  // Removing a type takes its handlers, but for those asked for under another type; other types and, but for the two
  // names that the event system keeps, other data are as before.
  lemma RemoveThenHandlers(accepts: set<Node>, s: State, n: Node, eventType: string, other: string, name: string, pvt: bool)
    requires Safe(s) && n in accepts && Proper(EntryOf(s, n)) && (pvt ==> name !in ["events", "handle", "toJSON", "data"])
    ensures var t := Step(accepts, s, RemoveHandlers(n, eventType));
      && HandlersOf(t, n, other) == (if other == eventType then Others(HandlersOf(s, n, other), other) else HandlersOf(s, n, other))
      && Get(accepts, t, n, name, pvt) == Get(accepts, s, n, name, pvt)
  {
    EntryAfter(accepts, s, RemoveHandlers(n, eventType), n);
    if EntryOf(s, n).Some? { WithoutHandlersOf(EntryOf(s, n).value, eventType, other, name, pvt); }
    BothGets(accepts, s, Step(accepts, s, RemoveHandlers(n, eventType)), n, name, pvt);
  }

  lemma WithoutHandlersOf(d: Data, eventType: string, other: string, name: string, pvt: bool)
    requires Proper(Some(d))
    ensures var r := WithoutHandlers(d, eventType);
      && Proper(r)
      && TypeIn(r, other) == (if other == eventType then Others(TypeIn(Some(d), other), other) else TypeIn(Some(d), other))
      && (!pvt || name !in ["events", "handle", "toJSON", "data"] ==> In(r, name, pvt) == In(Some(d), name, pvt))
  {
    if IsEmptyData(d) {
      if "events" in d { NothingElse(d, "events"); }
    } else if EventsOf(d).Some? {
      var events := EventsWithout(EventsOf(d).value, eventType);
      EventsLeft(EventsOf(d).value, eventType, other);
      if events == map[] {
        var e := d["events" := Handlers(events)] - {"handle"};
        KeptIn(e, ["events"], "events");
        RemainingPrivate(e, ["events"], name);
      }
    }
  }

  lemma EventsLeft(events: map<string, seq<string>>, eventType: string, other: string)
    ensures var r := EventsWithout(events, eventType);
      (if other in r then r[other] else []) ==
        if other !in events then [] else if other == eventType then Others(events[other], other) else events[other]
  {
  }
}
