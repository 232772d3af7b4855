/** Evidence trees, run records, and flattening into dotted leaf paths. */
module Evidence {
  import opened Paths
  import opened Wrappers

  /** JSON-like evidence. Atoms stand for scalars up to `==`; sequences are compared as whole values. */
  datatype Value = Leaf(atom: int) | Seq(items: seq<Value>) | Map(fields: map<string, Value>)

  type LeafSet = set<(string, Value)>

  // ----- the leaves of a tree, with no dictionary that could lose one -----

  ghost function Leaves(v: Value, path: string): LeafSet {
    if v.Map? && v.fields != map[] then
      set k, leaf | k in v.fields && leaf in Leaves(v.fields[k], Child(path, k)) :: leaf
    else {(path, v)}
  }

  ghost predicate PrefixFree(keys: set<string>) {
    forall a, b :: a in keys && b in keys && PathCovers(a, b) ==> a == b
  }

  /** No mapping in the tree holds a key together with a dotted extension of it. */
  ghost predicate Unambiguous(v: Value) {
    v.Map? ==> PrefixFree(v.fields.Keys) && forall k :: k in v.fields ==> Unambiguous(v.fields[k])
  }

  lemma {:induction false} LeavesAreCovered(v: Value, path: string)
    requires path != ""
    ensures forall leaf :: leaf in Leaves(v, path) ==> PathCovers(path, leaf.0)
    ensures Leaves(v, path) != {}
  {
    if v.Map? && v.fields != map[] {
      forall k | k in v.fields ensures Leaves(v.fields[k], Child(path, k)) != {}
      {
        LeavesAreCovered(v.fields[k], Child(path, k));
      }
      var k :| k in v.fields;
      var leaf :| leaf in Leaves(v.fields[k], Child(path, k));
      assert leaf in Leaves(v, path);
      forall leaf | leaf in Leaves(v, path) ensures PathCovers(path, leaf.0) {
        var k :| k in v.fields && leaf in Leaves(v.fields[k], Child(path, k));
        LeavesAreCovered(v.fields[k], Child(path, k));
        CoversTransitive(path, Child(path, k), leaf.0);
      }
    }
  }

  /** A path and key that may be combined: only root keys sit below the empty path, and they are not empty. */
  ghost predicate RootOk(v: Value, path: string) {
    path == "" ==> v.Map? && v.fields != map[] && "" !in v.fields
  }

  /** One leaf's path never covers another's: flattened keys form an antichain of paths. */
  lemma {:induction false} LeavesAntichain(v: Value, path: string, a: (string, Value), b: (string, Value))
    requires Unambiguous(v) && RootOk(v, path)
    requires a in Leaves(v, path) && b in Leaves(v, path) && PathCovers(a.0, b.0)
    ensures a == b
  {
    if v.Map? && v.fields != map[] {
      var j :| j in v.fields && a in Leaves(v.fields[j], Child(path, j));
      var k :| k in v.fields && b in Leaves(v.fields[k], Child(path, k));
      LeavesAreCovered(v.fields[j], Child(path, j));
      LeavesAreCovered(v.fields[k], Child(path, k));
      CoversTransitive(Child(path, j), a.0, b.0);
      SharedPathMeansSameKey(v.fields.Keys, path, j, k, b.0);
      LeavesAntichain(v.fields[j], Child(path, j), a, b);
    }
  }

  lemma {:induction false} SharedPathMeansSameKey(keys: set<string>, path: string, j: string, k: string, p: string)
    requires PrefixFree(keys) && j in keys && k in keys
    requires PathCovers(Child(path, j), p) && PathCovers(Child(path, k), p)
    ensures j == k
  {
    OverlapIffSharedPath(Child(path, j), Child(path, k));
    ChildCovers(path, j, k);
    ChildCovers(path, k, j);
  }

  // ----- the dictionary-filling implementation -----

  datatype Flattened = Flat(leaves: map<string, Value>) | Ambiguous(path: string)

  /** Some mapping at or below `path` holds the key that `p` names and a dotted extension of it. */
  ghost predicate AmbiguousAt(v: Value, path: string, p: string) {
    v.Map? && (
      (exists a, b :: a in v.fields && b in v.fields && a != b && PathCovers(a, b) && p == Child(path, a))
      || (exists k :: k in v.fields && AmbiguousAt(v.fields[k], Child(path, k), p)))
  }

  lemma {:induction false} AmbiguousAtSound(v: Value, path: string, p: string)
    requires AmbiguousAt(v, path, p)
    ensures !Unambiguous(v)
  {
    if !(exists a, b :: a in v.fields && b in v.fields && a != b && PathCovers(a, b) && p == Child(path, a)) {
      var k :| k in v.fields && AmbiguousAt(v.fields[k], Child(path, k), p);
      AmbiguousAtSound(v.fields[k], Child(path, k), p);
    }
  }

  lemma {:induction false} ExtensionHasProperSegmentPrefix(a: string, b: string)
    requires PathCovers(a, b) && a != b
    ensures 1 <= |Split(a)| < |Split(b)| && a == Join(Split(b)[..|Split(a)|])
  {
    CoversIsSegmentPrefix(a, b);
    JoinSplit(a);
    JoinSplit(b);
    assert Split(a) != Split(b);
    assert Split(b)[..|Split(a)|] == Split(a);
  }

  lemma {:induction false} SegmentPrefixCovers(key: string, n: nat)
    requires 1 <= n < |Split(key)|
    ensures PathCovers(Join(Split(key)[..n]), key) && Join(Split(key)[..n]) != key
  {
    JoinSplit(key);
    assert Split(key) == Split(key)[..n] + Split(key)[n..];
    JoinConcat(Split(key)[..n], Split(key)[n..]);
  }

  /** The leaves below the first `n` of some keys of a mapping. */
  ghost function LeavesOfKeys(v: Value, path: string, keys: seq<string>, n: nat): LeafSet
    requires v.Map? && n <= |keys| && forall j :: 0 <= j < n ==> keys[j] in v.fields
  {
    set j, leaf | 0 <= j < n && leaf in Leaves(v.fields[keys[j]], Child(path, keys[j])) :: leaf
  }

  /** No other key of the mapping covers this one. */
  ghost predicate Uncovered(v: Value, key: string) {
    v.Map? && forall a :: a in v.fields && PathCovers(a, key) ==> a == key
  }

  /** The first `n` keys are free of ambiguity, among themselves and below. */
  ghost predicate KeysClear(v: Value, keys: seq<string>, n: nat)
    requires v.Map? && n <= |keys| && forall k :: k in keys <==> k in v.fields
  {
    forall j :: 0 <= j < n ==> Unambiguous(v.fields[keys[j]]) && Uncovered(v, keys[j])
  }

  lemma {:induction false} OneMoreKeyClear(v: Value, keys: seq<string>, n: nat)
    requires v.Map? && n < |keys| && (forall k :: k in keys <==> k in v.fields) && KeysClear(v, keys, n)
    requires Unambiguous(v.fields[keys[n]]) && Uncovered(v, keys[n])
    ensures KeysClear(v, keys, n + 1)
  {}

  /** Nothing is overwritten by `update`: entries of different keys never share a path. */
  lemma {:induction false} EntriesDisjoint(
      v: Value, path: string, keys: seq<string>, i: nat, before: LeafSet, child: LeafSet)
    requires v.Map? && RootOk(v, path) && i < |keys| && (forall j :: 0 <= j <= i ==> keys[j] in v.fields)
    requires forall j :: 0 <= j <= i ==> Uncovered(v, keys[j])
    requires forall j :: 0 <= j < i ==> keys[j] != keys[i]
    requires before == LeavesOfKeys(v, path, keys, i)
    requires child == Leaves(v.fields[keys[i]], Child(path, keys[i]))
    ensures forall a, b :: a in before && b in child ==> a.0 != b.0
  {
    forall a, b | a in before && b in child ensures a.0 != b.0 {
      var j :| 0 <= j < i && a in Leaves(v.fields[keys[j]], Child(path, keys[j]));
      LeavesAreCovered(v.fields[keys[j]], Child(path, keys[j]));
      LeavesAreCovered(v.fields[keys[i]], Child(path, keys[i]));
      if a.0 == b.0 {
        OverlapIffSharedPath(Child(path, keys[j]), Child(path, keys[i]));
        ChildCovers(path, keys[j], keys[i]);
        ChildCovers(path, keys[i], keys[j]);
      }
    }
  }

  ghost function Items(m: map<string, Value>): LeafSet {
    set p | p in m :: (p, m[p])
  }

  lemma {:induction false} ItemsOfSum(m: map<string, Value>, n: map<string, Value>)
    requires m.Keys !! n.Keys
    ensures Items(m + n) == Items(m) + Items(n)
  {
    forall leaf ensures leaf in Items(m + n) <==> leaf in Items(m) + Items(n) {
      var p := leaf.0;
      assert p in m ==> (p, m[p]) in Items(m) && (m + n)[p] == m[p];
      assert p in n ==> (p, n[p]) in Items(n) && (m + n)[p] == n[p];
      assert p in m + n ==> (p, (m + n)[p]) in Items(m + n);
    }
  }

  lemma {:induction false} UpdateStep(
      v: Value, path: string, keys: seq<string>, i: nat, m: map<string, Value>, n: map<string, Value>)
    requires v.Map? && RootOk(v, path) && i < |keys| && (forall k :: k in keys <==> k in v.fields)
    requires KeysClear(v, keys, i + 1)
    requires forall j :: 0 <= j < i ==> keys[j] != keys[i]
    requires Items(m) == LeavesOfKeys(v, path, keys, i)
    requires Items(n) == Leaves(v.fields[keys[i]], Child(path, keys[i]))
    ensures Items(m + n) == LeavesOfKeys(v, path, keys, i + 1)
  {
    forall p | p in m ensures p !in n {
      assert (p, m[p]) in Items(m);
      assert p in n ==> (p, n[p]) in Items(n);
      EntriesDisjoint(v, path, keys, i, Items(m), Items(n));
    }
    ItemsOfSum(m, n);
  }

  /** The scan of a key's proper dotted prefixes for one that is a key of the same mapping. */
  method CoveringKey(v: Value, key: string) returns (r: Option<string>)
    requires v.Map? && key in v.fields
    ensures r.None? <==> Uncovered(v, key)
    ensures r.Some? ==> r.value in v.fields && r.value != key && PathCovers(r.value, key)
  {
    var segments := Split(key);
    for index := 1 to |segments|
      invariant forall n :: 1 <= n < index ==> Join(segments[..n]) !in v.fields
    {
      var prefix := Join(segments[..index]);
      if prefix in v.fields {
        SegmentPrefixCovers(key, index);
        return Some(prefix);
      }
    }
    forall a | a in v.fields && PathCovers(a, key) ensures a == key {
      if a != key { ExtensionHasProperSegmentPrefix(a, key); }
    }
    return None;
  }

  /** `_flatten`: fills a dictionary key by key; raises unless every mapping has prefix-free keys. */
  method Flatten(v: Value, path: string) returns (r: Flattened)
    requires RootOk(v, path)
    ensures r.Flat? <==> Unambiguous(v)
    ensures r.Flat? ==> Items(r.leaves) == Leaves(v, path)
    ensures r.Ambiguous? ==> AmbiguousAt(v, path, r.path)
    decreases v
  {
    if !v.Map? || v.fields == map[] {
      r := Flat(map[path := v]);
      assert (path, v) == (path, r.leaves[path]);
      return;
    }
    var keys := SortKeys(v.fields.Keys);
    SortedDistinct(v.fields.Keys);
    assert forall j :: 0 <= j < |keys| ==> keys[j] in keys;
    var flattened: map<string, Value> := map[];
    for i := 0 to |keys|
      invariant Items(flattened) == LeavesOfKeys(v, path, keys, i)
      invariant KeysClear(v, keys, i)
    {
      var key := keys[i];
      var shadow := CoveringKey(v, key);
      if shadow.Some? {
        AmbiguousAtSound(v, path, Child(path, shadow.value));
        return Ambiguous(Child(path, shadow.value));
      }
      var child := Flatten(v.fields[key], Child(path, key));
      if child.Ambiguous? {
        AmbiguousAtSound(v, path, child.path);
        return child;
      }
      OneMoreKeyClear(v, keys, i);
      UpdateStep(v, path, keys, i, flattened, child.leaves);
      flattened := flattened + child.leaves;
    }
    AllKeysDone(v, path, keys);
    return Flat(flattened);
  }

  lemma {:induction false} AllKeysDone(v: Value, path: string, keys: seq<string>)
    requires v.Map? && v.fields != map[] && forall k :: k in keys <==> k in v.fields
    requires KeysClear(v, keys, |keys|)
    ensures Unambiguous(v)
    ensures LeavesOfKeys(v, path, keys, |keys|) == Leaves(v, path)
  {
    forall k | k in v.fields ensures Unambiguous(v.fields[k]) && Uncovered(v, k) {
      assert k in keys;
    }
    forall leaf | leaf in Leaves(v, path) ensures leaf in LeavesOfKeys(v, path, keys, |keys|) {
      var k :| k in v.fields && leaf in Leaves(v.fields[k], Child(path, k));
      assert k in keys;
    }
  }
}
