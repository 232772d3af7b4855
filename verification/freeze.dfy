/** `freeze_value`: detaching an evidence value from a graph of mutable, possibly shared or cyclic containers. */
module Freeze {
  import opened Wrappers

  datatype Scalar = Text(text: string) | Bytes(bytes: seq<nat>) | Other(code: int)

  /** A value held by a container: a scalar, mutable bytes, a path-like object, a container, or anything else. */
  datatype Item = Plain(scalar: Scalar) | MutableBytes(bytes: seq<nat>) | PathLike(path: Scalar) | Ref(id: nat) | Alien

  datatype Key = StringKey(name: string) | OtherKey

  /** A container with its contents in iteration order. */
  datatype Node = Mapping(entries: seq<(Key, Item)>) | Sequence(items: seq<Item>) | Collection(items: seq<Item>)

  type Graph = map<nat, Node>

  datatype Frozen =
    | Leaf(scalar: Scalar)
    | Proxy(fields: map<string, Frozen>)
    | Tuple(items: seq<Frozen>)
    | FrozenSet(members: set<Frozen>)

  datatype Problem = Cyclic | BadKey | Unsupported | Unhashable

  function Children(n: Node): seq<Item> {
    if n.Mapping? then seq(|n.entries|, i requires 0 <= i < |n.entries| => n.entries[i].1) else n.items
  }

  predicate InGraph(g: Graph, v: Item) { v.Ref? ==> v.id in g }

  predicate EntriesInGraph(g: Graph, entries: seq<(Key, Item)>) {
    forall i :: 0 <= i < |entries| ==> InGraph(g, entries[i].1)
  }

  predicate ItemsInGraph(g: Graph, items: seq<Item>) {
    forall i :: 0 <= i < |items| ==> InGraph(g, items[i])
  }

  predicate DistinctKeys(entries: seq<(Key, Item)>) {
    forall i, j :: 0 <= i < j < |entries| && entries[i].0.StringKey? ==> entries[i].0 != entries[j].0
  }

  /** Every reference leads to a container, and a mapping yields each key once. */
  predicate Closed(g: Graph) {
    forall id :: id in g ==>
      if g[id].Mapping? then EntriesInGraph(g, g[id].entries) && DistinctKeys(g[id].entries)
      else ItemsInGraph(g, g[id].items)
  }

  /** Mapping proxies are not hashable, nor is a tuple that holds one. */
  predicate Hashable(f: Frozen) {
    match f
    case Leaf(_) => true
    case Proxy(_) => false
    case Tuple(items) => forall i :: 0 <= i < |items| ==> Hashable(items[i])
    case FrozenSet(_) => true
  }

  // ----- what freezing computes -----

  /** The set of the values in a sequence. */
  function AsSet(fs: seq<Frozen>): set<Frozen> {
    set x | x in fs
  }

  function Unfold(g: Graph, v: Item, active: set<nat>): (r: Result<Frozen, Problem>)
    requires Closed(g) && InGraph(g, v)
    decreases g.Keys - active, 0
  {
    match v
    case Plain(s) => Ok(Leaf(s))
    case MutableBytes(b) => Ok(Leaf(Bytes(b)))
    case PathLike(p) => Ok(Leaf(p))
    case Alien => Err(Unsupported)
    case Ref(id) =>
      if id in active then Err(Cyclic)
      else
        assert id in g.Keys - active;
        match g[id]
        case Mapping(entries) => UnfoldEntries(g, entries, active + {id}, map[])
        case Sequence(items) =>
          (match UnfoldItems(g, items, active + {id}, false)
           case Ok(fs) => Ok(Tuple(fs))
           case Err(e) => Err(e))
        case Collection(items) =>
          (match UnfoldItems(g, items, active + {id}, true)
           case Ok(fs) => Ok(FrozenSet(AsSet(fs)))
           case Err(e) => Err(e))
  }

  function UnfoldItems(g: Graph, items: seq<Item>, active: set<nat>, hashed: bool): (r: Result<seq<Frozen>, Problem>)
    requires Closed(g) && ItemsInGraph(g, items)
    decreases g.Keys - active, |items|
  {
    if items == [] then Ok([])
    else match Unfold(g, items[0], active)
      case Err(e) => Err(e)
      case Ok(f) =>
        if hashed && !Hashable(f) then Err(Unhashable)
        else match UnfoldItems(g, items[1..], active, hashed)
          case Err(e) => Err(e)
          case Ok(fs) => Ok([f] + fs)
  }

  function UnfoldEntries(g: Graph, entries: seq<(Key, Item)>, active: set<nat>, done: map<string, Frozen>):
      (r: Result<Frozen, Problem>)
    requires Closed(g) && EntriesInGraph(g, entries)
    decreases g.Keys - active, |entries|
  {
    if entries == [] then Ok(Proxy(done))
    else if entries[0].0.OtherKey? then Err(BadKey)
    else match Unfold(g, entries[0].1, active)
      case Err(e) => Err(e)
      case Ok(f) => UnfoldEntries(g, entries[1..], active, done[entries[0].0.name := f])
  }

  // ----- the algorithm, with its shared set of containers under way -----

  class Freezer {
    var active: set<nat>

    constructor ()
      ensures active == {}
    {
      active := {};
    }

    method Freeze(g: Graph, v: Item) returns (r: Result<Frozen, Problem>)
      requires Closed(g) && InGraph(g, v)
      modifies this
      ensures r == Unfold(g, v, old(active))
      ensures active == old(active)
      decreases g.Keys - active, 0
    {
      match v {
        case Plain(s) => r := Ok(Leaf(s));
        case MutableBytes(b) => r := Ok(Leaf(Bytes(b)));
        case PathLike(p) => r := Ok(Leaf(p));
        case Alien => r := Err(Unsupported);
        case Ref(id) =>
          if id in active { return Err(Cyclic); }
          ghost var before := active;
          assert id in g.Keys - before;
          active := active + {id};
          match g[id] {
            case Mapping(entries) =>
              r := FreezeEntries(g, entries);
            case Sequence(items) =>
              var fs := FreezeItems(g, items, false);
              r := match fs case Ok(done) => Ok(Tuple(done)) case Err(e) => Err(e);
            case Collection(items) =>
              var fs := FreezeItems(g, items, true);
              r := match fs case Ok(done) => Ok(FrozenSet(AsSet(done))) case Err(e) => Err(e);
          }
          active := active - {id};
          assert active == before;
      }
    }

    method FreezeItems(g: Graph, items: seq<Item>, hashed: bool) returns (r: Result<seq<Frozen>, Problem>)
      requires Closed(g) && ItemsInGraph(g, items)
      modifies this
      ensures r == UnfoldItems(g, items, old(active), hashed)
      ensures active == old(active)
      decreases g.Keys - active, 1
    {
      var done: seq<Frozen> := [];
      OntoNothing(UnfoldItems(g, items, active, hashed));
      assert items[0..] == items;
      for i := 0 to |items|
        invariant active == old(active) && |done| == i
        invariant UnfoldItems(g, items, active, hashed) == Onto(done, UnfoldItems(g, items[i..], active, hashed))
      {
        assert items[i..][1..] == items[i + 1..];
        var f := Freeze(g, items[i]);
        if f.Err? { return Err(f.error); }
        if hashed && !Hashable(f.value) { return Err(Unhashable); }
        OntoStep(done, f.value, UnfoldItems(g, items[i + 1..], active, hashed));
        done := done + [f.value];
      }
      assert items[|items|..] == [] && done + [] == done;
      return Ok(done);
    }

    method FreezeEntries(g: Graph, entries: seq<(Key, Item)>) returns (r: Result<Frozen, Problem>)
      requires Closed(g) && EntriesInGraph(g, entries)
      modifies this
      ensures r == UnfoldEntries(g, entries, old(active), map[])
      ensures active == old(active)
      decreases g.Keys - active, 1
    {
      var frozen: map<string, Frozen> := map[];
      for i := 0 to |entries|
        invariant active == old(active)
        invariant UnfoldEntries(g, entries, active, map[]) == UnfoldEntries(g, entries[i..], active, frozen)
      {
        assert entries[i..][1..] == entries[i + 1..];
        var (key, item) := entries[i];
        if key.OtherKey? { return Err(BadKey); }
        var f := Freeze(g, item);
        if f.Err? { return Err(f.error); }
        frozen := frozen[key.name := f.value];
      }
      return Ok(Proxy(frozen));
    }
  }

  function Onto(done: seq<Frozen>, r: Result<seq<Frozen>, Problem>): Result<seq<Frozen>, Problem> {
    match r case Ok(fs) => Ok(done + fs) case Err(e) => Err(e)
  }

  lemma {:induction false} OntoNothing(r: Result<seq<Frozen>, Problem>)
    ensures Onto([], r) == r
  {
    if r.Ok? { assert [] + r.value == r.value; }
  }

  lemma {:induction false} OntoStep(done: seq<Frozen>, f: Frozen, r: Result<seq<Frozen>, Problem>)
    ensures Onto(done + [f], r) == Onto(done, match r case Ok(fs) => Ok([f] + fs) case Err(e) => Err(e))
  {
    if r.Ok? { assert done + [f] + r.value == done + ([f] + r.value); }
  }

  // ----- what the result is -----

  /** `f` is the immutable tree that the value unfolds to. */
  ghost predicate Unfolds(g: Graph, v: Item, f: Frozen)
    decreases f, 1
  {
    match v
    case Plain(s) => f == Leaf(s)
    case MutableBytes(b) => f == Leaf(Bytes(b))
    case PathLike(p) => f == Leaf(p)
    case Alien => false
    case Ref(id) =>
      id in g &&
      match g[id]
      case Mapping(entries) =>
        && f.Proxy?
        && (forall i :: 0 <= i < |entries| ==>
              entries[i].0.StringKey? && entries[i].0.name in f.fields
              && Unfolds(g, entries[i].1, f.fields[entries[i].0.name]))
        && (forall k :: k in f.fields ==> exists i :: 0 <= i < |entries| && entries[i].0 == StringKey(k))
      case Sequence(items) =>
        f.Tuple? && |f.items| == |items| && forall i :: 0 <= i < |items| ==> Unfolds(g, items[i], f.items[i])
      case Collection(items) =>
        && f.FrozenSet? && (forall x :: x in f.members ==> Hashable(x))
        && (forall i :: 0 <= i < |items| ==> Becomes(g, items[i], f))
        && (forall x :: x in f.members ==> ComesFrom(g, items, f, x))
  }

  /** The item became a member of the frozen set. */
  ghost predicate Becomes(g: Graph, item: Item, f: Frozen)
    requires f.FrozenSet?
    decreases f, 0
  {
    exists x :: x in f.members && Unfolds(g, item, x)
  }

  ghost predicate ComesFrom(g: Graph, items: seq<Item>, f: Frozen, x: Frozen)
    requires f.FrozenSet? && x in f.members
    decreases f, 0
  {
    exists i :: 0 <= i < |items| && Unfolds(g, items[i], x)
  }

  /** A value unfolds to at most one tree. */
  lemma {:induction false} UnfoldingIsUnique(g: Graph, v: Item, a: Frozen, b: Frozen)
    requires Unfolds(g, v, a) && Unfolds(g, v, b)
    ensures a == b
    decreases a, 1
  {
    if v.Ref? {
      match g[v.id]
      case Mapping(entries) => SameFields(g, entries, v, a, b);
      case Sequence(items) =>
        forall i | 0 <= i < |items| ensures a.items[i] == b.items[i] {
          UnfoldingIsUnique(g, items[i], a.items[i], b.items[i]);
        }
        assert a.items == b.items;
      case Collection(items) => SameMembers(g, items, v, a, b);
    }
  }

  lemma {:induction false} SameFields(g: Graph, entries: seq<(Key, Item)>, v: Item, a: Frozen, b: Frozen)
    requires v.Ref? && v.id in g && g[v.id] == Mapping(entries) && Unfolds(g, v, a) && Unfolds(g, v, b)
    ensures a == b
    decreases a, 0
  {
    forall k ensures k in a.fields <==> k in b.fields {
      if k in a.fields { var i :| 0 <= i < |entries| && entries[i].0 == StringKey(k); }
      if k in b.fields { var i :| 0 <= i < |entries| && entries[i].0 == StringKey(k); }
    }
    forall k | k in a.fields ensures a.fields[k] == b.fields[k] {
      var i :| 0 <= i < |entries| && entries[i].0 == StringKey(k);
      UnfoldingIsUnique(g, entries[i].1, a.fields[k], b.fields[k]);
    }
    assert a.fields == b.fields;
  }

  lemma {:induction false} SameMembers(g: Graph, items: seq<Item>, v: Item, a: Frozen, b: Frozen)
    requires v.Ref? && v.id in g && g[v.id] == Collection(items) && Unfolds(g, v, a) && Unfolds(g, v, b)
    ensures a == b
    decreases a, 0
  {
    forall x | x in a.members ensures x in b.members {
      assert ComesFrom(g, items, a, x);
      var i :| 0 <= i < |items| && Unfolds(g, items[i], x);
      assert Becomes(g, items[i], b);
      var y :| y in b.members && Unfolds(g, items[i], y);
      UnfoldingIsUnique(g, items[i], x, y);
    }
    forall y | y in b.members ensures y in a.members {
      assert ComesFrom(g, items, b, y);
      var i :| 0 <= i < |items| && Unfolds(g, items[i], y);
      assert Becomes(g, items[i], a);
      var x :| x in a.members && Unfolds(g, items[i], x);
      UnfoldingIsUnique(g, items[i], x, y);
    }
    assert a.members == b.members;
  }

  // ----- whatever freezing returns is the unfolding -----

  lemma {:induction false} FrozenUnfolds(g: Graph, v: Item, active: set<nat>)
    requires Closed(g) && InGraph(g, v) && Unfold(g, v, active).Ok?
    ensures Unfolds(g, v, Unfold(g, v, active).value)
    decreases g.Keys - active, 0
  {
    if v.Ref? {
      assert v.id in g.Keys - active;
      match g[v.id]
      case Mapping(entries) => EntriesUnfold(g, entries, active + {v.id}, map[]);
      case Sequence(items) => ItemsUnfold(g, items, active + {v.id}, false);
      case Collection(items) =>
        ItemsUnfold(g, items, active + {v.id}, true);
        SetUnfolds(g, v.id, items, UnfoldItems(g, items, active + {v.id}, true).value);
    }
  }

  lemma {:induction false} SetUnfolds(g: Graph, id: nat, items: seq<Item>, fs: seq<Frozen>)
    requires id in g && g[id] == Collection(items) && |fs| == |items|
    requires forall i :: 0 <= i < |items| ==> Unfolds(g, items[i], fs[i]) && Hashable(fs[i])
    ensures Unfolds(g, Ref(id), FrozenSet(AsSet(fs)))
  {
    var f := FrozenSet(AsSet(fs));
    forall i | 0 <= i < |items| ensures Becomes(g, items[i], f) { assert fs[i] in f.members; }
    forall x | x in f.members ensures ComesFrom(g, items, f, x) {
      var i :| 0 <= i < |fs| && fs[i] == x;
      assert Unfolds(g, items[i], x);
    }
  }

  lemma {:induction false} ItemsUnfold(g: Graph, items: seq<Item>, active: set<nat>, hashed: bool)
    requires Closed(g) && ItemsInGraph(g, items) && UnfoldItems(g, items, active, hashed).Ok?
    ensures var fs := UnfoldItems(g, items, active, hashed).value;
      && |fs| == |items|
      && (forall i :: 0 <= i < |items| ==> Unfolds(g, items[i], fs[i]))
      && (hashed ==> forall i :: 0 <= i < |items| ==> Hashable(fs[i]))
    decreases g.Keys - active, |items|
  {
    if items != [] {
      FrozenUnfolds(g, items[0], active);
      ItemsUnfold(g, items[1..], active, hashed);
    }
  }

  lemma {:induction false} EntriesUnfold(
      g: Graph, entries: seq<(Key, Item)>, active: set<nat>, done: map<string, Frozen>)
    requires Closed(g) && EntriesInGraph(g, entries) && DistinctKeys(entries)
    requires UnfoldEntries(g, entries, active, done).Ok?
    requires forall i :: 0 <= i < |entries| && entries[i].0.StringKey? ==> entries[i].0.name !in done
    ensures var f := UnfoldEntries(g, entries, active, done).value;
      && f.Proxy?
      && (forall k :: k in done ==> k in f.fields && f.fields[k] == done[k])
      && (forall i :: 0 <= i < |entries| ==>
            entries[i].0.StringKey? && entries[i].0.name in f.fields
            && Unfolds(g, entries[i].1, f.fields[entries[i].0.name]))
      && (forall k :: k in f.fields ==> k in done || exists i :: 0 <= i < |entries| && entries[i].0 == StringKey(k))
    decreases g.Keys - active, |entries|
  {
    if entries != [] {
      FrozenUnfolds(g, entries[0].1, active);
      var f := Unfold(g, entries[0].1, active).value;
      EntriesUnfold(g, entries[1..], active, done[entries[0].0.name := f]);
    }
  }

  // ----- whatever has an unfolding is frozen to it -----

  /** The container unfolds to a tree that properly contains `f`. */
  ghost predicate Above(g: Graph, id: nat, f: Frozen) {
    exists whole :: Unfolds(g, Ref(id), whole) && f < whole
  }

  /** Every container under way is above `f`, so `f` cannot lead back to it. */
  ghost predicate AllAbove(g: Graph, active: set<nat>, f: Frozen) {
    forall id :: id in active ==> Above(g, id, f)
  }

  lemma {:induction false} Deeper(g: Graph, active: set<nat>, id: nat, f: Frozen, part: Frozen)
    requires AllAbove(g, active, f) && Unfolds(g, Ref(id), f) && part < f
    ensures AllAbove(g, active + {id}, part)
  {
    forall a | a in active ensures Above(g, a, part) {
      var whole :| Unfolds(g, Ref(a), whole) && f < whole;
      assert part < whole;
    }
  }

  lemma {:induction false} NotUnderWay(g: Graph, active: set<nat>, id: nat, f: Frozen)
    requires AllAbove(g, active, f) && Unfolds(g, Ref(id), f)
    ensures id !in active
  {
    if id in active {
      var whole :| Unfolds(g, Ref(id), whole) && f < whole;
      UnfoldingIsUnique(g, Ref(id), f, whole);
    }
  }

  lemma {:induction false} UnfoldingIsFrozen(g: Graph, v: Item, active: set<nat>, f: Frozen)
    requires Closed(g) && InGraph(g, v) && Unfolds(g, v, f) && AllAbove(g, active, f)
    ensures Unfold(g, v, active) == Ok(f)
    decreases f, 2, 0
  {
    if v.Ref? {
      NotUnderWay(g, active, v.id, f);
      match g[v.id]
      case Mapping(entries) => MappingIsFrozen(g, v.id, entries, active, f);
      case Sequence(items) => SequenceIsFrozen(g, v.id, items, active, f);
      case Collection(items) => CollectionIsFrozen(g, v.id, items, active, f);
    }
  }

  lemma {:induction false} SequenceIsFrozen(g: Graph, id: nat, items: seq<Item>, active: set<nat>, f: Frozen)
    requires Closed(g) && id in g && g[id] == Sequence(items) && Unfolds(g, Ref(id), f) && AllAbove(g, active, f)
    ensures UnfoldItems(g, items, active + {id}, false) == Ok(f.items)
    decreases f, 1, 0
  {
    forall i | 0 <= i < |items| ensures AllAbove(g, active + {id}, f.items[i]) {
      Deeper(g, active, id, f, f.items[i]);
    }
    ItemsAreFrozen(g, items, active + {id}, false, f, f.items);
  }

  lemma {:induction false} CollectionIsFrozen(g: Graph, id: nat, items: seq<Item>, active: set<nat>, f: Frozen)
    requires Closed(g) && id in g && g[id] == Collection(items) && Unfolds(g, Ref(id), f) && AllAbove(g, active, f)
    requires id !in active
    ensures Unfold(g, Ref(id), active) == Ok(f)
    decreases f, 1, 1
  {
    var fs := ChosenMembers(g, id, items, f);
    MembersAreParts(g, id, items, active, f, fs);
    ItemsAreFrozen(g, items, active + {id}, true, f, fs);
    CollectionOf(g, id, items, active, f, fs);
  }

  /** Parts of an unfolding, each at its item and below everything under way. */
  ghost predicate PartsOf(g: Graph, items: seq<Item>, active: set<nat>, whole: Frozen, fs: seq<Frozen>) {
    && |fs| == |items|
    && forall i :: 0 <= i < |fs| ==> fs[i] < whole && Unfolds(g, items[i], fs[i]) && AllAbove(g, active, fs[i])
  }

  /** The members that the items became; together they are the whole set. */
  lemma {:induction false} ChosenMembers(g: Graph, id: nat, items: seq<Item>, f: Frozen) returns (fs: seq<Frozen>)
    requires id in g && g[id] == Collection(items) && Unfolds(g, Ref(id), f)
    ensures f.FrozenSet? && |fs| == |items|
    ensures forall i :: 0 <= i < |items| ==> fs[i] in f.members && Unfolds(g, items[i], fs[i])
    ensures forall i :: 0 <= i < |fs| ==> Hashable(fs[i])
    ensures AsSet(fs) == f.members
  {
    fs := Chosen(g, items, f);
    ChosenCover(g, id, items, f, fs);
    MembersHash(g, id, f, fs);
  }

  lemma {:induction false} MembersAreParts(
      g: Graph, id: nat, items: seq<Item>, active: set<nat>, f: Frozen, fs: seq<Frozen>)
    requires Unfolds(g, Ref(id), f) && AllAbove(g, active, f) && f.FrozenSet? && |fs| == |items|
    requires forall i :: 0 <= i < |items| ==> fs[i] in f.members && Unfolds(g, items[i], fs[i])
    ensures PartsOf(g, items, active + {id}, f, fs)
  {
    forall i | 0 <= i < |items| ensures fs[i] < f && AllAbove(g, active + {id}, fs[i]) {
      Deeper(g, active, id, f, fs[i]);
    }
  }

  lemma {:induction false} MembersHash(g: Graph, id: nat, f: Frozen, fs: seq<Frozen>)
    requires id in g && g[id].Collection? && Unfolds(g, Ref(id), f)
    requires forall i :: 0 <= i < |fs| ==> fs[i] in f.members
    ensures forall i :: 0 <= i < |fs| ==> Hashable(fs[i])
  {
    forall i | 0 <= i < |fs| ensures Hashable(fs[i]) { assert fs[i] in f.members; }
  }

  lemma {:induction false} CollectionOf(
      g: Graph, id: nat, items: seq<Item>, active: set<nat>, f: Frozen, fs: seq<Frozen>)
    requires Closed(g) && id in g && g[id] == Collection(items) && id !in active && ItemsInGraph(g, items)
    requires UnfoldItems(g, items, active + {id}, true) == Ok(fs)
    requires f.FrozenSet? && AsSet(fs) == f.members
    ensures Unfold(g, Ref(id), active) == Ok(f)
  {}

  lemma {:induction false} ChosenCover(g: Graph, id: nat, items: seq<Item>, f: Frozen, fs: seq<Frozen>)
    requires id in g && g[id] == Collection(items) && Unfolds(g, Ref(id), f) && |fs| == |items|
    requires forall i :: 0 <= i < |items| ==> fs[i] in f.members && Unfolds(g, items[i], fs[i])
    ensures AsSet(fs) == f.members
  {
    var members := AsSet(fs);
    forall x | x in f.members ensures x in members {
      assert ComesFrom(g, items, f, x);
      var i :| 0 <= i < |items| && Unfolds(g, items[i], x);
      UnfoldingIsUnique(g, items[i], x, fs[i]);
    }
  }

  /** For every item the member it became. */
  lemma {:induction false} Chosen(g: Graph, items: seq<Item>, f: Frozen) returns (fs: seq<Frozen>)
    requires f.FrozenSet? && forall i :: 0 <= i < |items| ==> Becomes(g, items[i], f)
    ensures |fs| == |items|
    ensures forall i :: 0 <= i < |items| ==> fs[i] in f.members && Unfolds(g, items[i], fs[i])
  {
    if items == [] {
      fs := [];
    } else {
      assert Becomes(g, items[0], f);
      var x :| x in f.members && Unfolds(g, items[0], x);
      var rest := Chosen(g, items[1..], f);
      fs := [x] + rest;
    }
  }

  lemma {:induction false} ItemsAreFrozen(
      g: Graph, items: seq<Item>, active: set<nat>, hashed: bool, whole: Frozen, fs: seq<Frozen>)
    requires Closed(g) && ItemsInGraph(g, items) && PartsOf(g, items, active, whole, fs)
    requires hashed ==> forall i :: 0 <= i < |fs| ==> Hashable(fs[i])
    ensures UnfoldItems(g, items, active, hashed) == Ok(fs)
    decreases whole, 0, |items|
  {
    if items != [] {
      UnfoldingIsFrozen(g, items[0], active, fs[0]);
      ItemsAreFrozen(g, items[1..], active, hashed, whole, fs[1..]);
      assert [fs[0]] + fs[1..] == fs;
    }
  }

  lemma {:induction false} MappingIsFrozen(g: Graph, id: nat, entries: seq<(Key, Item)>, active: set<nat>, f: Frozen)
    requires Closed(g) && id in g && g[id] == Mapping(entries) && Unfolds(g, Ref(id), f) && AllAbove(g, active, f)
    ensures UnfoldEntries(g, entries, active + {id}, map[]) == Ok(f)
    decreases f, 1, 0
  {
    forall k | k in f.fields ensures AllAbove(g, active + {id}, f.fields[k]) {
      Deeper(g, active, id, f, f.fields[k]);
    }
    EntriesAreFrozen(g, entries, active + {id}, map[], f);
  }

  lemma {:induction false} EntriesAreFrozen(
      g: Graph, entries: seq<(Key, Item)>, active: set<nat>, done: map<string, Frozen>, f: Frozen)
    requires Closed(g) && EntriesInGraph(g, entries) && f.Proxy?
    requires forall i :: 0 <= i < |entries| ==>
      entries[i].0.StringKey? && entries[i].0.name in f.fields && Unfolds(g, entries[i].1, f.fields[entries[i].0.name])
    requires forall k :: k in f.fields ==> AllAbove(g, active, f.fields[k])
    requires forall k :: k in done ==> k in f.fields && done[k] == f.fields[k]
    requires forall k :: k in f.fields ==> k in done || exists i :: 0 <= i < |entries| && entries[i].0 == StringKey(k)
    ensures UnfoldEntries(g, entries, active, done) == Ok(f)
    decreases f, 0, |entries|
  {
    if entries == [] {
      assert done == f.fields;
    } else {
      var name := entries[0].0.name;
      UnfoldingIsFrozen(g, entries[0].1, active, f.fields[name]);
      forall k | k in f.fields
        ensures k in done[name := f.fields[name]]
          || exists i :: 0 <= i < |entries[1..]| && entries[1..][i].0 == StringKey(k)
      {
        if k !in done && k != name {
          var i :| 0 <= i < |entries| && entries[i].0 == StringKey(k);
          assert entries[1..][i - 1].0 == StringKey(k);
        }
      }
      EntriesAreFrozen(g, entries[1..], active, done[name := f.fields[name]], f);
    }
  }

  // ----- reachable defects -----

  predicate Kid(g: Graph, a: nat, b: nat) {
    a in g && exists i :: 0 <= i < |Children(g[a])| && Children(g[a])[i] == Ref(b)
  }

  predicate IsPath(g: Graph, p: seq<nat>) {
    p != [] && (forall id :: id in p ==> id in g) && forall i :: 0 < i < |p| ==> Kid(g, p[i - 1], p[i])
  }

  predicate Repeats(p: seq<nat>) { exists i, j :: 0 <= i < j < |p| && p[i] == p[j] }

  /** A mapping with a key that is not a string, or a container that holds an unsupported object. */
  predicate BadNode(n: Node) {
    || (n.Mapping? && exists i :: 0 <= i < |n.entries| && n.entries[i].0.OtherKey?)
    || exists i :: 0 <= i < |Children(n)| && Children(n)[i].Alien?
  }

  /** The path leads from a set down to a mapping. */
  predicate MappingInSet(g: Graph, p: seq<nat>) {
    exists i, j :: 0 <= i < j < |p| && p[i] in g && p[j] in g && g[p[i]].Collection? && g[p[j]].Mapping?
  }

  predicate Defective(g: Graph, p: seq<nat>) {
    IsPath(g, p) && (Repeats(p) || (p[|p| - 1] in g && BadNode(g[p[|p| - 1]])) || MappingInSet(g, p))
  }

  /** A child of an unfolding container unfolds to a part of its tree, and a set's parts are hashable. */
  lemma {:induction false} KidUnfolds(g: Graph, a: nat, b: nat, f: Frozen) returns (part: Frozen)
    requires Kid(g, a, b) && Unfolds(g, Ref(a), f)
    ensures Unfolds(g, Ref(b), part) && part < f
    ensures Hashable(f) || f.FrozenSet? ==> Hashable(part)
  {
    var i :| 0 <= i < |Children(g[a])| && Children(g[a])[i] == Ref(b);
    match g[a] {
      case Mapping(entries) => part := f.fields[entries[i].0.name];
      case Sequence(items) => part := f.items[i];
      case Collection(items) =>
        assert Becomes(g, items[i], f);
        part :| part in f.members && Unfolds(g, items[i], part);
    }
  }

  lemma {:induction false} PathUnfolds(g: Graph, p: seq<nat>, f: Frozen) returns (part: Frozen)
    requires IsPath(g, p) && Unfolds(g, Ref(p[0]), f)
    ensures Unfolds(g, Ref(p[|p| - 1]), part)
    ensures if |p| > 1 then part < f else part == f
    ensures Hashable(f) || (f.FrozenSet? && |p| > 1) ==> Hashable(part)
    decreases |p|
  {
    if |p| == 1 {
      part := f;
    } else {
      var next := KidUnfolds(g, p[0], p[1], f);
      part := PathUnfolds(g, p[1..], next);
    }
  }

  lemma {:induction false} SubPath(g: Graph, p: seq<nat>, i: nat, j: nat)
    requires IsPath(g, p) && i <= j < |p|
    ensures IsPath(g, p[i..j + 1]) && p[i..j + 1][0] == p[i] && p[i..j + 1][j - i] == p[j]
  {
    var q := p[i..j + 1];
    forall k | 0 < k < |q| ensures Kid(g, q[k - 1], q[k]) {
      assert q[k] == p[i + k] && q[k - 1] == p[i + k - 1];
    }
  }

  /** Nothing that unfolds can reach a defect. */
  lemma {:induction false} UnfoldingHasNoDefect(g: Graph, p: seq<nat>, f: Frozen)
    requires IsPath(g, p) && Unfolds(g, Ref(p[0]), f)
    ensures !Defective(g, p)
  {
    if Repeats(p) {
      var i, j :| 0 <= i < j < |p| && p[i] == p[j];
      var first, second := TwoOnPath(g, p, i, j, f);
      UnfoldingIsUnique(g, Ref(p[i]), first, second);
    }
    if MappingInSet(g, p) {
      var i, j :| 0 <= i < j < |p| && p[i] in g && p[j] in g && g[p[i]].Collection? && g[p[j]].Mapping?;
      var first, second := TwoOnPath(g, p, i, j, f);
    }
    var last := PathUnfolds(g, p, f);
    NotBad(g, p[|p| - 1], last);
  }

  lemma {:induction false} SegmentUnfolds(g: Graph, p: seq<nat>, i: nat, j: nat, f: Frozen) returns (part: Frozen)
    requires IsPath(g, p) && i <= j < |p| && Unfolds(g, Ref(p[i]), f)
    ensures Unfolds(g, Ref(p[j]), part)
    ensures i < j ==> part < f && (f.FrozenSet? ==> Hashable(part))
  {
    SubPath(g, p, i, j);
    part := PathUnfolds(g, p[i..j + 1], f);
  }

  lemma {:induction false} TwoOnPath(
      g: Graph, p: seq<nat>, i: nat, j: nat, f: Frozen)
    returns (first: Frozen, second: Frozen)
    requires IsPath(g, p) && Unfolds(g, Ref(p[0]), f) && i < j < |p|
    ensures Unfolds(g, Ref(p[i]), first) && Unfolds(g, Ref(p[j]), second) && second < first
    ensures first.FrozenSet? ==> Hashable(second)
  {
    first := SegmentUnfolds(g, p, 0, i, f);
    second := SegmentUnfolds(g, p, i, j, first);
  }

  lemma {:induction false} NotBad(g: Graph, id: nat, f: Frozen)
    requires id in g && Unfolds(g, Ref(id), f)
    ensures !BadNode(g[id])
  {
    var n := g[id];
    forall i | 0 <= i < |Children(n)| ensures !Children(n)[i].Alien? {
      if n.Collection? { assert Becomes(g, n.items[i], f); }
    }
  }

  /** The search that a failure leaves behind: a path to a container under way, or a defect. */
  predicate Witness(g: Graph, active: set<nat>, p: seq<nat>) {
    Defective(g, p) || (IsPath(g, p) && p[|p| - 1] in active)
  }

  lemma {:induction false} Prepend(g: Graph, active: set<nat>, id: nat, p: seq<nat>)
    requires Witness(g, active + {id}, p) && Kid(g, id, p[0])
    ensures Witness(g, active, [id] + p)
  {
    var q := [id] + p;
    PathFrom(g, id, p);
    assert q[|q| - 1] == p[|p| - 1];
    RepeatsBelow(id, p, q);
    MappingInSetBelow(g, id, p, q);
    if p[|p| - 1] == id { assert q[0] == q[|q| - 1]; }
  }

  lemma {:induction false} RepeatsBelow(id: nat, p: seq<nat>, q: seq<nat>)
    requires q == [id] + p
    ensures Repeats(p) ==> Repeats(q)
  {
    if Repeats(p) {
      var i, j :| 0 <= i < j < |p| && p[i] == p[j];
      assert q[i + 1] == q[j + 1];
    }
  }

  lemma {:induction false} MappingInSetBelow(g: Graph, id: nat, p: seq<nat>, q: seq<nat>)
    requires q == [id] + p
    ensures MappingInSet(g, p) ==> MappingInSet(g, q)
  {
    if MappingInSet(g, p) {
      var i, j :| 0 <= i < j < |p| && p[i] in g && p[j] in g && g[p[i]].Collection? && g[p[j]].Mapping?;
      assert q[i + 1] == p[i] && q[j + 1] == p[j];
    }
  }

  lemma {:induction false} PathFrom(g: Graph, id: nat, p: seq<nat>)
    requires IsPath(g, p) && Kid(g, id, p[0])
    ensures IsPath(g, [id] + p)
  {
    var q := [id] + p;
    assert p[0] in p;
    forall k | 0 < k < |q| ensures Kid(g, q[k - 1], q[k]) {
      if k > 1 { assert q[k] == p[k - 1] && q[k - 1] == p[k - 2]; }
    }
  }

  /** What is not hashable reaches a mapping. */
  lemma {:induction false} UnhashableReachesMapping(g: Graph, v: Item, f: Frozen) returns (p: seq<nat>)
    requires InGraph(g, v) && Unfolds(g, v, f) && !Hashable(f)
    ensures v.Ref? && IsPath(g, p) && p[0] == v.id && p[|p| - 1] in g && g[p[|p| - 1]].Mapping?
    decreases f
  {
    match g[v.id] {
      case Mapping(_) => p := [v.id];
      case Collection(_) => p := [];
      case Sequence(items) =>
        var i :| 0 <= i < |f.items| && !Hashable(f.items[i]);
        var q := UnhashableReachesMapping(g, items[i], f.items[i]);
        assert Children(g[v.id])[i] == Ref(q[0]);
        PathFrom(g, v.id, q);
        p := [v.id] + q;
    }
  }

  lemma {:induction false} FailureHasWitness(g: Graph, id: nat, active: set<nat>) returns (p: seq<nat>)
    requires Closed(g) && id in g && Unfold(g, Ref(id), active).Err?
    ensures Witness(g, active, p) && p[0] == id
    decreases g.Keys - active, 0
  {
    if id in active { return [id]; }
    assert id in g.Keys - active;
    var i := FailingChild(g, id, active + {id});
    var child := Children(g[id])[i];
    if child.Alien? || (g[id].Mapping? && g[id].entries[i].0.OtherKey?) { return [id]; }
    assert child.Ref?;
    var q: seq<nat>;
    if Unfold(g, child, active + {id}).Err? {
      q := FailureHasWitness(g, child.id, active + {id});
      assert Kid(g, id, q[0]);
      Prepend(g, active, id, q);
    } else {
      FrozenUnfolds(g, child, active + {id});
      q := UnhashableReachesMapping(g, child, Unfold(g, child, active + {id}).value);
      assert Kid(g, id, q[0]);
      PathFrom(g, id, q);
      var whole := [id] + q;
      assert whole[0] == id && whole[|whole| - 1] == q[|q| - 1];
    }
    p := [id] + q;
  }

  /** The child at which a container's freezing fails. */
  lemma {:induction false} FailingChild(g: Graph, id: nat, active: set<nat>) returns (i: nat)
    requires Closed(g) && id in g && id in active && Unfold(g, Ref(id), active - {id}).Err?
    ensures i < |Children(g[id])|
    ensures
      || (g[id].Mapping? && g[id].entries[i].0.OtherKey?)
      || Unfold(g, Children(g[id])[i], active).Err?
      || (g[id].Collection? && !Hashable(Unfold(g, Children(g[id])[i], active).value))
  {
    assert active - {id} + {id} == active;
    match g[id] {
      case Mapping(entries) => i := FailingEntry(g, entries, active, map[]);
      case Sequence(items) => i := FailingItem(g, items, active, false);
      case Collection(items) => i := FailingItem(g, items, active, true);
    }
  }

  lemma {:induction false} FailingItem(g: Graph, items: seq<Item>, active: set<nat>, hashed: bool) returns (i: nat)
    requires Closed(g) && ItemsInGraph(g, items) && UnfoldItems(g, items, active, hashed).Err?
    ensures i < |items|
    ensures Unfold(g, items[i], active).Err? || (hashed && !Hashable(Unfold(g, items[i], active).value))
    decreases |items|
  {
    if Unfold(g, items[0], active).Err? || (hashed && !Hashable(Unfold(g, items[0], active).value)) {
      i := 0;
    } else {
      i := FailingItem(g, items[1..], active, hashed);
      i := i + 1;
    }
  }

  lemma {:induction false} FailingEntry(
      g: Graph, entries: seq<(Key, Item)>, active: set<nat>, done: map<string, Frozen>)
      returns (i: nat)
    requires Closed(g) && EntriesInGraph(g, entries) && UnfoldEntries(g, entries, active, done).Err?
    ensures i < |entries|
    ensures entries[i].0.OtherKey? || Unfold(g, entries[i].1, active).Err?
    decreases |entries|
  {
    if entries[0].0.OtherKey? || Unfold(g, entries[0].1, active).Err? {
      i := 0;
    } else {
      i := FailingEntry(g, entries[1..], active, done[entries[0].0.name := Unfold(g, entries[0].1, active).value]);
      i := i + 1;
    }
  }

  // ----- the main results -----

  /** Freezing succeeds exactly when the value has a finite unfolding, and then returns that unfolding. */
  lemma {:induction false} FreezeIsUnfolding(g: Graph, v: Item, f: Frozen)
    requires Closed(g) && InGraph(g, v)
    ensures Unfold(g, v, {}) == Ok(f) <==> Unfolds(g, v, f)
  {
    if Unfold(g, v, {}) == Ok(f) { FrozenUnfolds(g, v, {}); }
    if Unfolds(g, v, f) { UnfoldingIsFrozen(g, v, {}, f); }
  }

  /** Freezing its own result changes nothing: any containers that hold `f` freeze to `f` again. */
  lemma {:induction false} FreezeIsIdempotent(g: Graph, v: Item, h: Graph, w: Item)
    requires Closed(g) && InGraph(g, v) && Closed(h) && InGraph(h, w)
    requires Unfold(g, v, {}).Ok? && Unfolds(h, w, Unfold(g, v, {}).value)
    ensures Unfold(h, w, {}) == Unfold(g, v, {})
  {
    FreezeIsUnfolding(h, w, Unfold(g, v, {}).value);
  }

  // ----- a frozen value is a graph of containers itself -----

  /** Every set in the tree holds hashable values only. */
  ghost predicate SetsHash(f: Frozen) {
    match f
    case Leaf(_) => true
    case Proxy(fields) => forall k :: k in fields ==> SetsHash(fields[k])
    case Tuple(items) => forall i :: 0 <= i < |items| ==> SetsHash(items[i])
    case FrozenSet(members) => forall x :: x in members ==> Hashable(x) && SetsHash(x)
  }

  lemma {:induction false} UnfoldingSetsHash(g: Graph, v: Item, f: Frozen)
    requires Unfolds(g, v, f)
    ensures SetsHash(f)
    decreases f
  {
    if v.Ref? {
      match g[v.id] {
        case Mapping(entries) =>
          forall k | k in f.fields ensures SetsHash(f.fields[k]) {
            var i :| 0 <= i < |entries| && entries[i].0 == StringKey(k);
            UnfoldingSetsHash(g, entries[i].1, f.fields[k]);
          }
        case Sequence(items) =>
          forall i | 0 <= i < |items| ensures SetsHash(f.items[i]) { UnfoldingSetsHash(g, items[i], f.items[i]); }
        case Collection(items) =>
          forall x | x in f.members ensures SetsHash(x) {
            assert ComesFrom(g, items, f, x);
            var i :| 0 <= i < |items| && Unfolds(g, items[i], x);
            UnfoldingSetsHash(g, items[i], x);
          }
      }
    }
  }

  ghost predicate Extends(g: Graph, h: Graph) {
    forall id :: id in g ==> id in h && h[id] == g[id]
  }

  /** More containers elsewhere do not change what a value unfolds to. */
  lemma {:induction false} UnfoldsInMore(g: Graph, h: Graph, v: Item, f: Frozen)
    requires Extends(g, h) && Unfolds(g, v, f)
    ensures Unfolds(h, v, f)
    decreases f
  {
    if v.Ref? {
      match g[v.id] {
        case Mapping(entries) =>
          forall i | 0 <= i < |entries| ensures Unfolds(h, entries[i].1, f.fields[entries[i].0.name]) {
            UnfoldsInMore(g, h, entries[i].1, f.fields[entries[i].0.name]);
          }
        case Sequence(items) =>
          forall i | 0 <= i < |items| ensures Unfolds(h, items[i], f.items[i]) {
            UnfoldsInMore(g, h, items[i], f.items[i]);
          }
        case Collection(items) =>
          AllBecomeInMore(g, h, items, f);
          AllComeFromInMore(g, h, items, f);
      }
    }
  }

  lemma {:induction false} AllBecomeInMore(g: Graph, h: Graph, items: seq<Item>, f: Frozen)
    requires Extends(g, h) && f.FrozenSet? && forall i :: 0 <= i < |items| ==> Becomes(g, items[i], f)
    ensures forall i :: 0 <= i < |items| ==> Becomes(h, items[i], f)
    decreases f, 1
  {
    forall i | 0 <= i < |items| ensures Becomes(h, items[i], f) { BecomesInMore(g, h, items[i], f); }
  }

  lemma {:induction false} AllComeFromInMore(g: Graph, h: Graph, items: seq<Item>, f: Frozen)
    requires Extends(g, h) && f.FrozenSet? && forall x :: x in f.members ==> ComesFrom(g, items, f, x)
    ensures forall x :: x in f.members ==> ComesFrom(h, items, f, x)
    decreases f, 1
  {
    forall x | x in f.members ensures ComesFrom(h, items, f, x) { ComesFromInMore(g, h, items, f, x); }
  }

  lemma {:induction false} BecomesInMore(g: Graph, h: Graph, item: Item, f: Frozen)
    requires Extends(g, h) && f.FrozenSet? && Becomes(g, item, f)
    ensures Becomes(h, item, f)
    decreases f, 0
  {
    var x :| x in f.members && Unfolds(g, item, x);
    UnfoldsInMore(g, h, item, x);
  }

  lemma {:induction false} ComesFromInMore(g: Graph, h: Graph, items: seq<Item>, f: Frozen, x: Frozen)
    requires Extends(g, h) && f.FrozenSet? && x in f.members && ComesFrom(g, items, f, x)
    ensures ComesFrom(h, items, f, x)
    decreases f, 0
  {
    var i :| 0 <= i < |items| && Unfolds(g, items[i], x);
    UnfoldsInMore(g, h, items[i], x);
  }

  lemma {:induction false} UnusedId(ids: set<nat>) returns (n: nat)
    ensures forall id :: id in ids ==> id < n
    decreases |ids|
  {
    if ids == {} {
      n := 0;
    } else {
      var id :| id in ids;
      var above := UnusedId(ids - {id});
      n := if id < above then above else id + 1;
      forall other | other in ids ensures other < n {
        if other != id { assert other in ids - {id}; }
      }
    }
  }

  /** One more container, on top of what there is. */
  lemma {:induction false} Placed(g: Graph, node: Node) returns (h: Graph, id: nat)
    requires Closed(g)
    requires if node.Mapping? then EntriesInGraph(g, node.entries) && DistinctKeys(node.entries)
             else ItemsInGraph(g, node.items)
    ensures Closed(h) && Extends(g, h) && id in h && h[id] == node
  {
    id := UnusedId(g.Keys);
    h := g[id := node];
  }

  lemma {:induction false} InGraphExtends(g: Graph, h: Graph, items: seq<Item>)
    requires Extends(g, h) && ItemsInGraph(g, items)
    ensures ItemsInGraph(h, items)
  {}

  /** The items hold the values, one by one. */
  ghost predicate Holds(g: Graph, items: seq<Item>, fs: seq<Frozen>) {
    |items| == |fs| && ItemsInGraph(g, items) && forall i :: 0 <= i < |fs| ==> Unfolds(g, items[i], fs[i])
  }

  lemma {:induction false} LaidOutAll(g: Graph, whole: Frozen, fs: seq<Frozen>) returns (h: Graph, items: seq<Item>)
    requires Closed(g) && forall i :: 0 <= i < |fs| ==> fs[i] < whole && SetsHash(fs[i])
    ensures Closed(h) && Extends(g, h) && Holds(h, items, fs)
    decreases whole, 0, |fs|
  {
    if fs == [] {
      h, items := g, [];
    } else {
      var n := |fs| - 1;
      var before, first := LaidOutAll(g, whole, fs[..n]);
      var last;
      h, last := LaidOut(before, fs[n]);
      items := first + [last];
      forall i | 0 <= i < n ensures Unfolds(h, items[i], fs[i]) { UnfoldsInMore(before, h, first[i], fs[i]); }
    }
  }

  /** Containers that hold `f`, added to those of `g`. */
  lemma {:induction false} LaidOut(g: Graph, f: Frozen) returns (h: Graph, v: Item)
    requires Closed(g) && SetsHash(f)
    ensures Closed(h) && Extends(g, h) && InGraph(h, v) && Unfolds(h, v, f)
    decreases f, 1, 0
  {
    match f {
      case Leaf(scalar) => h, v := g, Plain(scalar);
      case Proxy(fields) => h, v := MappingLaidOut(g, f);
      case Tuple(items) =>
        var below, held := LaidOutAll(g, f, items);
        var id;
        h, id := Placed(below, Sequence(held));
        v := Ref(id);
        forall i | 0 <= i < |items| ensures Unfolds(h, held[i], items[i]) {
          UnfoldsInMore(below, h, held[i], items[i]);
        }
      case FrozenSet(members) => h, v := SetLaidOut(g, f);
    }
  }

  lemma {:induction false} Listed<T>(members: set<T>) returns (list: seq<T>)
    ensures forall x :: x in list <==> x in members
    ensures forall i, j :: 0 <= i < j < |list| ==> list[i] != list[j]
    decreases |members|
  {
    if members == {} {
      list := [];
    } else {
      var x :| x in members;
      var rest := Listed(members - {x});
      list := [x] + rest;
    }
  }

  lemma {:induction false} SetLaidOut(g: Graph, f: Frozen) returns (h: Graph, v: Item)
    requires Closed(g) && f.FrozenSet? && SetsHash(f)
    ensures Closed(h) && Extends(g, h) && InGraph(h, v) && Unfolds(h, v, f)
    decreases f, 0, |f.members| + 1
  {
    var list := Listed(f.members);
    forall i | 0 <= i < |list| ensures list[i] < f && SetsHash(list[i]) && Hashable(list[i]) {
      assert list[i] in f.members;
    }
    assert |list| <= |f.members| by { ListedOnce(list, f.members); }
    var below, held := LaidOutAll(g, f, list);
    var id;
    h, id := Placed(below, Collection(held));
    v := Ref(id);
    forall i | 0 <= i < |list| ensures Unfolds(h, held[i], list[i]) { UnfoldsInMore(below, h, held[i], list[i]); }
    SetUnfolds(h, id, held, list);
    assert AsSet(list) == f.members;
  }

  lemma {:induction false} ListedOnce<T>(list: seq<T>, members: set<T>)
    requires forall x :: x in list <==> x in members
    requires forall i, j :: 0 <= i < j < |list| ==> list[i] != list[j]
    ensures |list| == |members|
  {
    if list != [] {
      var rest := list[1..];
      forall x ensures x in rest <==> x in members - {list[0]} {
        if x in rest { var i :| 0 <= i < |rest| && rest[i] == x; assert list[i + 1] == x; }
        if x in members - {list[0]} { var i :| 0 <= i < |list| && list[i] == x; assert rest[i - 1] == x; }
      }
      ListedOnce(rest, members - {list[0]});
    }
  }

  lemma {:induction false} FieldsLaidOut(g: Graph, f: Frozen, keys: seq<string>) returns (h: Graph, held: seq<Item>)
    requires Closed(g) && f.Proxy? && SetsHash(f) && |keys| <= |f.fields|
    requires forall i :: 0 <= i < |keys| ==> keys[i] in f.fields
    ensures Closed(h) && Extends(g, h) && |held| == |keys| && ItemsInGraph(h, held)
    ensures forall i :: 0 <= i < |keys| ==> Unfolds(h, held[i], f.fields[keys[i]])
    decreases f, 0, |f.fields| + 1
  {
    var values := seq(|keys|, i requires 0 <= i < |keys| => f.fields[keys[i]]);
    h, held := LaidOutAll(g, f, values);
    assert forall i :: 0 <= i < |keys| ==> values[i] == f.fields[keys[i]];
  }

  lemma {:induction false} MappingLaidOut(g: Graph, f: Frozen) returns (h: Graph, v: Item)
    requires Closed(g) && f.Proxy? && SetsHash(f)
    ensures Closed(h) && Extends(g, h) && InGraph(h, v) && Unfolds(h, v, f)
    decreases f, 0, |f.fields| + 2
  {
    var keys := Listed(f.fields.Keys);
    ListedOnce(keys, f.fields.Keys);
    var below, held := FieldsLaidOut(g, f, keys);
    var entries := seq(|keys|, i requires 0 <= i < |keys| => (StringKey(keys[i]), held[i]));
    var id;
    h, id := Placed(below, Mapping(entries));
    v := Ref(id);
    forall i | 0 <= i < |keys| ensures Unfolds(h, entries[i].1, f.fields[keys[i]]) {
      UnfoldsInMore(below, h, held[i], f.fields[keys[i]]);
    }
    MappingUnfolds(h, id, entries, keys, f);
  }

  lemma {:induction false} MappingUnfolds(h: Graph, id: nat, entries: seq<(Key, Item)>, keys: seq<string>, f: Frozen)
    requires id in h && h[id] == Mapping(entries) && f.Proxy? && |entries| == |keys|
    requires forall k :: k in keys <==> k in f.fields
    requires forall i :: 0 <= i < |keys| ==> keys[i] in f.fields && entries[i].0 == StringKey(keys[i])
    requires forall i :: 0 <= i < |keys| ==> Unfolds(h, entries[i].1, f.fields[keys[i]])
    ensures Unfolds(h, Ref(id), f)
  {
    forall k | k in f.fields ensures exists i :: 0 <= i < |entries| && entries[i].0 == StringKey(k) {
      var i :| 0 <= i < |keys| && keys[i] == k;
      assert entries[i].0 == StringKey(k);
    }
  }

  /** A frozen value, laid out as the containers it consists of, freezes to itself. */
  lemma {:induction false} FrozenFreezesToItself(g: Graph, v: Item) returns (h: Graph, w: Item)
    requires Closed(g) && InGraph(g, v) && Unfold(g, v, {}).Ok?
    ensures Closed(h) && InGraph(h, w) && Unfolds(h, w, Unfold(g, v, {}).value)
    ensures Unfold(h, w, {}) == Unfold(g, v, {})
  {
    var f := Unfold(g, v, {}).value;
    FreezeIsUnfolding(g, v, f);
    UnfoldingSetsHash(g, v, f);
    h, w := LaidOut(map[], f);
    FreezeIsIdempotent(g, v, h, w);
  }

  ghost predicate IsResult(f: Frozen) {
    exists g, v :: Closed(g) && InGraph(g, v) && Unfold(g, v, {}) == Ok(f)
  }

  /** The values that freezing can return are exactly the trees whose sets hold hashable values. */
  lemma {:induction false} ResultsAreHashingTrees(f: Frozen)
    ensures IsResult(f) <==> SetsHash(f)
  {
    if g, v :| Closed(g) && InGraph(g, v) && Unfold(g, v, {}) == Ok(f) {
      FreezeIsUnfolding(g, v, f);
      UnfoldingSetsHash(g, v, f);
    }
    if SetsHash(f) {
      var h, w := LaidOut(map[], f);
      FreezeIsUnfolding(h, w, f);
    }
  }

  // ----- when freezing succeeds -----

  /** A container freezes exactly when no path from it repeats, ends in a bad container, or puts a mapping in a set. */
  lemma {:induction false} FreezeSucceedsIffNoDefect(g: Graph, id: nat)
    requires Closed(g) && id in g
    ensures Unfold(g, Ref(id), {}).Ok? <==> !exists p :: Defective(g, p) && p[0] == id
  {
    if Unfold(g, Ref(id), {}).Ok? {
      FrozenUnfolds(g, Ref(id), {});
      forall p | IsPath(g, p) && p[0] == id ensures !Defective(g, p) {
        UnfoldingHasNoDefect(g, p, Unfold(g, Ref(id), {}).value);
      }
    } else {
      var p := FailureHasWitness(g, id, {});
    }
  }
}
