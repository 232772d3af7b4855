/** A declaration that resolves governs exactly the leaves of the value it resolved to. */
module Coherence {
  import opened Paths
  import opened Wrappers
  import opened Evidence
  import opened Records
  import opened Resolve
  import opened Visibility

  /** The position that a walk along `segments` ends in; sequences outside `invocations` show nothing below them. */
  function EndPosition(v: Value, pos: Position, segments: seq<string>): Position
    decreases |segments|
  {
    if segments == [] then pos
    else match v
      case Map(fields) =>
        var end := LongestKey(fields.Keys, segments, |segments|);
        if end == 0 then Hidden
        else
          var key := Join(segments[..end]);
          EndPosition(fields[key], ChildPosition(pos, key), segments[end..])
      case Seq(items) =>
        if pos == Invocations && IsDigits(segments[0]) && Number(segments[0]) < |items|
           && segments[0] == Decimal(Number(segments[0])) then
          EndPosition(items[Number(segments[0])], Row, segments[1..])
        else Hidden
      case Leaf(_) => Hidden
  }

  /** No visible key of a mapping covers, or is covered by, another key of that mapping. */
  ghost predicate Isolated(v: Value, pos: Position) {
    && (v.Map? ==>
          && (forall a, b :: a in v.fields && b in v.fields && PathCovers(a, b) && a != b ==>
                ChildPosition(pos, a) == Hidden && ChildPosition(pos, b) == Hidden)
          && (forall k :: k in v.fields ==> Isolated(v.fields[k], ChildPosition(pos, k))))
    && (v.Seq? && pos == Invocations ==> forall i :: 0 <= i < |v.items| ==> Isolated(v.items[i], Row))
  }

  /** No other key of the mapping that covers `key`, or is covered by it, shows anything. */
  ghost predicate Alone(v: Value, pos: Position, key: string)
    requires v.Map?
  {
    forall k :: k in v.fields && k != key && (PathCovers(k, key) || PathCovers(key, k)) ==>
      ChildPosition(pos, k) == Hidden
  }

  /** Every key that a walk along `segments` takes is alone in its mapping. */
  ghost predicate Clear(v: Value, pos: Position, segments: seq<string>)
    decreases |segments|
  {
    segments == [] || match v
      case Map(fields) =>
        var end := LongestKey(fields.Keys, segments, |segments|);
        end == 0 || (
          var key := Join(segments[..end]);
          Alone(v, pos, key) && Clear(fields[key], ChildPosition(pos, key), segments[end..]))
      case Seq(items) =>
        pos == Invocations && IsDigits(segments[0]) && Number(segments[0]) < |items| ==>
          Clear(items[Number(segments[0])], Row, segments[1..])
      case Leaf(_) => true
  }

  lemma {:induction false} IsolatedIsClear(v: Value, pos: Position, segments: seq<string>)
    requires Isolated(v, pos)
    ensures Clear(v, pos, segments)
    decreases |segments|
  {
    if segments != [] {
      match v {
        case Map(fields) =>
          var end := LongestKey(fields.Keys, segments, |segments|);
          if end != 0 {
            var key := Join(segments[..end]);
            IsolatedIsClear(fields[key], ChildPosition(pos, key), segments[end..]);
          }
        case Seq(items) =>
          if pos == Invocations && IsDigits(segments[0]) && Number(segments[0]) < |items| {
            IsolatedIsClear(items[Number(segments[0])], Row, segments[1..]);
          }
        case Leaf(_) =>
      }
    }
  }

  ghost predicate DotFree(segments: seq<string>) {
    forall i :: 0 <= i < |segments| ==> '.' !in segments[i]
  }

  lemma {:induction false} SegmentsSplit(segments: seq<string>, end: nat)
    requires 1 <= end <= |segments|
    ensures PathCovers(Join(segments[..end]), Join(segments))
    ensures end < |segments| ==> Join(segments) == Join(segments[..end]) + "." + Join(segments[end..])
  {
    if end < |segments| {
      assert segments == segments[..end] + segments[end..];
      JoinConcat(segments[..end], segments[end..]);
    } else {
      assert segments[..end] == segments;
    }
  }

  lemma {:induction false} HiddenShowsNothing(v: Value, segments: seq<string>)
    ensures EndPosition(v, Hidden, segments) == Hidden
    decreases |segments|
  {
    if segments != [] && v.Map? {
      var end := LongestKey(v.fields.Keys, segments, |segments|);
      if end != 0 { HiddenShowsNothing(v.fields[Join(segments[..end])], segments[end..]); }
    }
  }

  /** Root keys are the only ones below the empty path, and none of them is empty. */
  ghost predicate PathOk(v: Value, pos: Position, path: string) {
    path == "" ==> v.Map? && pos == Top && "" !in v.fields
  }

  /** The leaves at or below `d`. */
  ghost function Under(leaves: LeafSet, d: string): LeafSet {
    set leaf | leaf in leaves && PathCovers(d, leaf.0)
  }

  lemma {:induction false} PathItselfIsAbove(path: string, rest: string)
    requires path != ""
    ensures !PathCovers(Child(path, rest), path)
  {
  }

  lemma {:induction false} CoveredByResolution(v: Value, pos: Position, path: string, segments: seq<string>, w: Value)
    requires Clear(v, pos, segments) && PathOk(v, pos, path) && DotFree(segments) && segments != []
    requires ResolveIn(v, segments) == Some(w)
    ensures Under(Visible(v, pos, path), Child(path, Join(segments)))
         == Visible(w, EndPosition(v, pos, segments), Child(path, Join(segments)))
    decreases |segments|, 1
  {
    match v
    case Map(fields) =>
      var end := LongestKey(fields.Keys, segments, |segments|);
      if pos == Invocations {
        HiddenShowsNothing(fields[Join(segments[..end])], segments[end..]);
      } else {
        MapStep(v, pos, path, segments, end, w);
      }
    case Seq(items) =>
      if pos == Invocations {
        RowStep(v, path, segments, w);
      } else {
        PathItselfIsAbove(path, Join(segments));
      }
  }

  /** The rest of the walk below the chosen key. */
  lemma {:induction false} Below(
    child: Value, pos: Position, path: string, key: string, rest: seq<string>, w: Value)
    requires Clear(child, pos, rest) && Child(path, key) != "" && DotFree(rest) && (path == "" ==> key != "")
    requires ResolveIn(child, rest) == Some(w)
    ensures Under(Visible(child, pos, Child(path, key)),
                  Child(path, if rest == [] then key else key + "." + Join(rest)))
         == Visible(w, EndPosition(child, pos, rest), Child(path, if rest == [] then key else key + "." + Join(rest)))
    decreases |rest|, 2
  {
    if rest == [] {
      forall leaf | leaf in Visible(child, pos, Child(path, key)) ensures PathCovers(Child(path, key), leaf.0) {
        VisibleCovered(child, pos, Child(path, key), leaf);
      }
    } else {
      CoveredByResolution(child, pos, Child(path, key), rest, w);
      ChildAssociative(path, key, Join(rest));
    }
  }

  lemma {:induction false} MapStep(v: Value, pos: Position, path: string, segments: seq<string>, end: nat, w: Value)
    requires v.Map? && pos != Invocations && Clear(v, pos, segments) && PathOk(v, pos, path) && DotFree(segments)
    requires 1 <= end <= |segments| && end == LongestKey(v.fields.Keys, segments, |segments|)
    requires ResolveIn(v, segments) == Some(w)
    ensures Under(Visible(v, pos, path), Child(path, Join(segments)))
         == Visible(w, EndPosition(v, pos, segments), Child(path, Join(segments)))
    decreases |segments|, 0
  {
    var key, rest, d := Join(segments[..end]), segments[end..], Child(path, Join(segments));
    var child, childPos := v.fields[key], ChildPosition(pos, key);
    SegmentsSplit(segments, end);
    assert Join(segments) == if rest == [] then key else key + "." + Join(rest) by {
      if rest == [] { assert segments[..end] == segments; }
    }
    Below(child, childPos, path, key, rest, w);
    ChildCovers(path, key, Join(segments));
    var below := Visible(child, childPos, Child(path, key));
    forall leaf ensures leaf in Under(Visible(v, pos, path), d) <==> leaf in Under(below, d) {
      if leaf in Under(Visible(v, pos, path), d) {
        LeafComesFromKey(v, pos, path, key, d, leaf);
      }
      if leaf in Under(below, d) {
        assert leaf in VisibleChildren(v, pos, path);
      }
    }
    if pos == Hidden { HiddenShowsNothing(child, rest); }
  }

  lemma {:induction false} LeafComesFromKey(
      v: Value, pos: Position, path: string, key: string, d: string, leaf: (string, Value))
    requires v.Map? && pos != Invocations && PathOk(v, pos, path) && key in v.fields && Alone(v, pos, key)
    requires leaf in Visible(v, pos, path) && PathCovers(d, leaf.0) && PathCovers(Child(path, key), d)
    ensures leaf in Visible(v.fields[key], ChildPosition(pos, key), Child(path, key))
  {
    CoversTransitive(Child(path, key), d, leaf.0);
    if leaf !in VisibleChildren(v, pos, path) {
      PathItselfIsAbove(path, key);
      assert false;
    }
    var k :| k in v.fields && leaf in Visible(v.fields[k], ChildPosition(pos, k), Child(path, k));
    VisibleCovered(v.fields[k], ChildPosition(pos, k), Child(path, k), leaf);
    OverlapIffSharedPath(Child(path, k), Child(path, key));
    ChildCovers(path, k, key);
    ChildCovers(path, key, k);
  }

  lemma {:induction false} RowStep(v: Value, path: string, segments: seq<string>, w: Value)
    requires v.Seq? && Clear(v, Invocations, segments) && path != "" && DotFree(segments) && segments != []
    requires ResolveIn(v, segments) == Some(w)
    ensures Under(Visible(v, Invocations, path), Child(path, Join(segments)))
         == Visible(w, EndPosition(v, Invocations, segments), Child(path, Join(segments)))
    decreases |segments|, 0
  {
    var index, rest, d := segments[0], segments[1..], Child(path, Join(segments));
    var n := Number(index);
    assert Join(segments) == if rest == [] then index else index + "." + Join(rest);
    ChildCovers(path, index, Join(segments));
    if index == Decimal(n) {
      Below(v.items[n], Row, path, index, rest, w);
    }
    forall leaf ensures leaf in Under(Visible(v, Invocations, path), d) <==>
      index == Decimal(n) && leaf in Under(Visible(v.items[n], Row, Child(path, index)), d)
    {
      if leaf in Under(Visible(v, Invocations, path), d) {
        var i :| 0 <= i < |v.items| && leaf in Visible(v.items[i], Row, Child(path, Decimal(i)));
        VisibleCovered(v.items[i], Row, Child(path, Decimal(i)), leaf);
        CoversTransitive(Child(path, index), d, leaf.0);
        SameIndex(path, Decimal(i), index, leaf.0);
        NumberOfDecimal(i);
      }
    }
  }

  lemma {:induction false} ProperExtensionHasDot(a: string, b: string)
    requires PathCovers(a, b) && a != b
    ensures '.' in b
  {
    assert b[|a|] == '.';
  }

  lemma {:induction false} SameIndex(path: string, a: string, b: string, p: string)
    requires IsDigits(a) && '.' !in b
    requires PathCovers(Child(path, a), p) && PathCovers(Child(path, b), p)
    ensures a == b
  {
    OverlapIffSharedPath(Child(path, a), Child(path, b));
    ChildCovers(path, a, b);
    ChildCovers(path, b, a);
    if a != b {
      if PathCovers(a, b) { ProperExtensionHasDot(a, b); } else { ProperExtensionHasDot(b, a); }
    }
  }

  // ----- regular records: keys with a meaning of their own are spelled as single keys -----

  /** No key is a dotted extension of a special key of its mapping, and `invocations` is not a mapping. */
  ghost predicate Regular(v: Value, pos: Position) {
    && (pos in {Top, ResolvedRoot, ObservedRoot} ==> v.Map?)
    && (v.Map? ==>
          && pos != Invocations
          && (forall k, s :: k in v.fields && s in Special(pos) && PathCovers(s, k) ==> k == s)
          && (forall k :: k in v.fields ==> Regular(v.fields[k], ChildPosition(pos, k))))
    && (v.Seq? && pos == Invocations ==> forall i :: 0 <= i < |v.items| ==> Regular(v.items[i], Row))
  }

  /** The position a dimension's own segments name, whatever record it is resolved in. */
  function NamedPosition(pos: Position, segments: seq<string>): Position
    decreases |segments|
  {
    if segments == [] then pos
    else if pos == Invocations then
      if IsDigits(segments[0]) && segments[0] == Decimal(Number(segments[0])) then NamedPosition(Row, segments[1..])
      else Hidden
    else if segments[0] in Special(pos) then NamedPosition(ChildPosition(pos, segments[0]), segments[1..])
    else if pos == Row || pos == Hidden then Hidden
    else Plain
  }

  lemma {:induction false} SpecialKeysAreDotFree(pos: Position, s: string)
    requires s in Special(pos)
    ensures '.' !in s
  {
  }

  lemma {:induction false} HiddenStaysHidden(segments: seq<string>)
    ensures NamedPosition(Hidden, segments) == Hidden
  {
  }

  lemma {:induction false} PlainStaysPlain(segments: seq<string>)
    ensures NamedPosition(Plain, segments) == Plain
  {
  }

  ghost predicate OpaqueAncestor(leaves: LeafSet, d: string, leaf: (string, Value)) {
    leaf in leaves && leaf.1.Seq? && PathCovers(leaf.0, d) && leaf.0 != d
  }

  ghost predicate ThroughSequence(leaves: LeafSet, d: string) {
    exists leaf :: OpaqueAncestor(leaves, d, leaf)
  }

  /** The chosen key is special exactly when the first segment is, and then it is that segment. */
  lemma {:induction false} ChosenKeyIsNamed(keys: set<string>, pos: Position, segments: seq<string>, end: nat)
    requires 1 <= end <= |segments| && DotFree(segments)
    requires Join(segments[..end]) in keys
    requires forall k, s :: k in keys && s in Special(pos) && PathCovers(s, k) ==> k == s
    ensures segments[0] in Special(pos) ==> end == 1
    ensures segments[0] !in Special(pos) ==> Join(segments[..end]) !in Special(pos)
    ensures end == 1 ==> Join(segments[..end]) == segments[0]
  {
    var key := Join(segments[..end]);
    assert segments[..end][..1] == [segments[0]];
    SegmentsSplit(segments[..end], 1);
    assert Join([segments[0]]) == segments[0];
    if end > 1 {
      assert key[|segments[0]|] == '.';
      if key in Special(pos) { SpecialKeysAreDotFree(pos, key); }
    }
  }

  /**
   * In a regular record a resolved dimension ends in the position its own segments name, unless the walk went
   * through a sequence, which is then itself a leaf above the dimension.
   */
  lemma {:induction false} EndsWhereNamed(v: Value, pos: Position, path: string, segments: seq<string>, w: Value)
    requires Regular(v, pos) && PathOk(v, pos, path) && DotFree(segments)
    requires ResolveIn(v, segments) == Some(w)
    ensures EndPosition(v, pos, segments) == NamedPosition(pos, segments)
      || ThroughSequence(Visible(v, pos, path), Child(path, Join(segments)))
    decreases |segments|
  {
    if pos == Hidden {
      HiddenShowsNothing(v, segments);
      HiddenStaysHidden(segments);
    } else if segments != [] {
      match v
      case Map(fields) =>
        NamedBelowKey(v, pos, path, segments, w);
      case Seq(items) =>
        if pos == Invocations { NamedBelowRow(v, path, segments, w); } else { EndsInSequence(v, pos, path, segments); }
    }
  }

  lemma {:induction false} EndsInSequence(v: Value, pos: Position, path: string, segments: seq<string>)
    requires v.Seq? && pos != Invocations && pos != Hidden && Regular(v, pos) && PathOk(v, pos, path)
    requires segments != [] && IsDigits(segments[0])
    ensures NamedPosition(pos, segments) == Hidden
      || OpaqueAncestor(Visible(v, pos, path), Child(path, Join(segments)), (path, v))
  {
    if ShowsItself(pos) {
      PathItselfIsAbove(path, Join(segments));
      assert Visible(v, pos, path) == {(path, v)};
      assert PathCovers(path, Child(path, Join(segments)));
    } else {
      IndexIsNotSpecial(segments[0]);
      assert pos == Row;
    }
  }

  lemma {:induction false} FieldsAreWords(s: string)
    requires s in INVOCATION_FIELDS
    ensures s != "" && s[0] > '9'
  {}

  lemma {:induction false} IndexIsNotSpecial(s: string)
    requires IsDigits(s)
    ensures s !in Special(Row)
  {
    if s in INVOCATION_FIELDS { FieldsAreWords(s); }
  }

  lemma {:induction false} ChildOfJoined(path: string, segments: seq<string>, end: nat)
    requires 1 <= end < |segments|
    ensures Child(path, Join(segments)) == Child(path, Join(segments[..end]) + "." + Join(segments[end..]))
    ensures Join(segments[..end]) != "" || path != "" ==>
      Child(path, Join(segments)) == Child(Child(path, Join(segments[..end])), Join(segments[end..]))
  {
    SegmentsSplit(segments, end);
    if Join(segments[..end]) != "" || path != "" {
      ChildAssociative(path, Join(segments[..end]), Join(segments[end..]));
    }
  }

  lemma {:induction false} NamedBelowKey(v: Value, pos: Position, path: string, segments: seq<string>, w: Value)
    requires v.Map? && pos != Hidden && Regular(v, pos) && PathOk(v, pos, path) && DotFree(segments)
    requires segments != [] && ResolveIn(v, segments) == Some(w)
    ensures EndPosition(v, pos, segments) == NamedPosition(pos, segments)
      || ThroughSequence(Visible(v, pos, path), Child(path, Join(segments)))
    decreases |segments|, 0
  {
    var end := LongestKey(v.fields.Keys, segments, |segments|);
    var key, rest := Join(segments[..end]), segments[end..];
    var child, childPos := v.fields[key], ChildPosition(pos, key);
    EndsWhereNamed(child, childPos, Child(path, key), rest, w);
    NamedThroughKey(v, pos, segments, end);
    if EndPosition(child, childPos, rest) != NamedPosition(childPos, rest) {
      var leaf :| OpaqueAncestor(Visible(child, childPos, Child(path, key)), Child(Child(path, key), Join(rest)), leaf);
      assert rest != [];
      ChildOfJoined(path, segments, end);
      assert leaf in VisibleChildren(v, pos, path);
      assert OpaqueAncestor(Visible(v, pos, path), Child(path, Join(segments)), leaf);
    }
  }

  lemma {:induction false} NamedThroughKey(v: Value, pos: Position, segments: seq<string>, end: nat)
    requires v.Map? && pos != Hidden && Regular(v, pos) && DotFree(segments) && 1 <= end <= |segments|
    requires Join(segments[..end]) in v.fields
    ensures NamedPosition(ChildPosition(pos, Join(segments[..end])), segments[end..]) == NamedPosition(pos, segments)
  {
    ChosenKeyIsNamed(v.fields.Keys, pos, segments, end);
    HiddenStaysHidden(segments[end..]);
    PlainStaysPlain(segments[end..]);
  }

  lemma {:induction false} NamedBelowRow(v: Value, path: string, segments: seq<string>, w: Value)
    requires v.Seq? && Regular(v, Invocations) && path != "" && DotFree(segments)
    requires segments != [] && ResolveIn(v, segments) == Some(w)
    ensures EndPosition(v, Invocations, segments) == NamedPosition(Invocations, segments)
      || ThroughSequence(Visible(v, Invocations, path), Child(path, Join(segments)))
    decreases |segments|, 0
  {
    var index, rest := segments[0], segments[1..];
    var n := Number(index);
    if index == Decimal(n) {
      var row := v.items[n];
      EndsWhereNamed(row, Row, Child(path, index), rest, w);
      if EndPosition(row, Row, rest) != NamedPosition(Row, rest) {
        var leaf :| OpaqueAncestor(Visible(row, Row, Child(path, index)), Child(Child(path, index), Join(rest)), leaf);
        assert rest != [];
        assert Join(segments[..1]) == index;
        ChildOfJoined(path, segments, 1);
        assert leaf in Visible(v, Invocations, path);
        assert OpaqueAncestor(Visible(v, Invocations, path), Child(path, Join(segments)), leaf);
      }
    }
  }

  // ----- an unambiguous projection of a regular record isolates every visible key -----

  lemma {:induction false} PlainIsolated(v: Value)
    requires Unambiguous(v)
    ensures Isolated(v, Plain)
  {
    if v.Map? {
      forall k | k in v.fields ensures Isolated(v.fields[k], Plain) { PlainIsolated(v.fields[k]); }
    }
  }

  lemma {:induction false} HiddenIsolated(v: Value)
    ensures Isolated(v, Hidden)
  {
    if v.Map? {
      forall k | k in v.fields ensures Isolated(v.fields[k], Hidden) { HiddenIsolated(v.fields[k]); }
    }
  }

  /** One level: special keys are single, and the other keys are visible and prefix-free, or hidden. */
  lemma {:induction false} LevelIsolated(v: Value, pos: Position, keys: set<string>)
    requires v.Map? && Regular(v, pos) && PrefixFree(keys) && pos !in {Plain, Hidden, Invocations}
    requires forall k :: k in v.fields && k !in Special(pos) && ChildPosition(pos, k) != Hidden ==> k in keys
    requires forall k :: k in v.fields ==> Isolated(v.fields[k], ChildPosition(pos, k))
    ensures Isolated(v, pos)
  {
    forall a, b | a in v.fields && b in v.fields && PathCovers(a, b) && a != b
      ensures ChildPosition(pos, a) == Hidden && ChildPosition(pos, b) == Hidden
    {
      assert a !in Special(pos);
      assert b !in Special(pos) by {
        ProperExtensionHasDot(a, b);
        if b in Special(pos) { SpecialKeysAreDotFree(pos, b); }
      }
    }
  }

  lemma {:induction false} ComponentIsolated(v: Value)
    requires Regular(v, Component) && Unambiguous(WithoutSource(v))
    ensures Isolated(v, Component)
  {
    if v.Map? {
      forall k | k in v.fields ensures Isolated(v.fields[k], ChildPosition(Component, k)) {
        if k == "source" { HiddenIsolated(v.fields[k]); }
        else { assert v.fields[k] == WithoutSource(v).fields[k]; PlainIsolated(v.fields[k]); }
      }
      LevelIsolated(v, Component, WithoutSource(v).fields.Keys);
    }
  }

  lemma {:induction false} IdentityIsolated(v: Value)
    requires Regular(v, Identity) && Unambiguous(IdentityView(v))
    ensures Isolated(v, Identity)
  {
    if v.Map? {
      var view := IdentityView(v).fields;
      forall k | k in v.fields ensures Isolated(v.fields[k], ChildPosition(Identity, k)) {
        if k == "reasons" { HiddenIsolated(v.fields[k]); }
        else if k in COMPONENTS { assert k in view; ComponentIsolated(v.fields[k]); }
        else { assert k in view; PlainIsolated(v.fields[k]); }
      }
      LevelIsolated(v, Identity, view.Keys);
    }
  }

  lemma {:induction false} RowIsolated(row: Value)
    requires Regular(row, Row)
    requires RowView(row).Some? ==> Unambiguous(RowView(row).value)
    ensures Isolated(row, Row)
  {
    if row.Map? {
      forall k | k in row.fields ensures Isolated(row.fields[k], ChildPosition(Row, k)) {
        if k in INVOCATION_FIELDS {
          assert k in row.fields.Keys * INVOCATION_FIELDS;
          assert k in RowView(row).value.fields;
          PlainIsolated(row.fields[k]);
        } else { HiddenIsolated(row.fields[k]); }
      }
      LevelIsolated(row, Row, {});
    }
  }

  lemma {:induction false} InvocationsIsolated(observed: map<string, Value>)
    requires "invocations" in observed && Regular(observed["invocations"], Invocations)
    requires InvocationView(observed).Some? ==> Unambiguous(InvocationView(observed).value)
    ensures Isolated(observed["invocations"], Invocations)
  {
    var v := observed["invocations"];
    if v.Seq? {
      var views := RowViews(v.items, |v.items|);
      RowViewsContents(v.items, |v.items|, RowViews(v.items, |v.items|));
      forall i | 0 <= i < |v.items| ensures Isolated(v.items[i], Row) {
        if RowView(v.items[i]).Some? { assert Decimal(i) in views; }
        RowIsolated(v.items[i]);
      }
    }
  }

  lemma {:induction false} ObservedIsolated(observed: map<string, Value>)
    requires Regular(Map(observed), ObservedRoot) && Unambiguous(Map(ObservedView(observed)))
    ensures Isolated(Map(observed), ObservedRoot)
  {
    var v, view := Map(observed), ObservedView(observed);
    forall k | k in v.fields ensures Isolated(v.fields[k], ChildPosition(ObservedRoot, k)) {
      if k == "invocations" {
        assert InvocationView(observed).Some? ==> view["invocations"] == InvocationView(observed).value;
        InvocationsIsolated(observed);
      } else if k in OBSERVED_EXCLUDED { HiddenIsolated(v.fields[k]); }
      else if k == "identity" { assert k in view; IdentityIsolated(v.fields[k]); }
      else { assert k in view; PlainIsolated(v.fields[k]); }
    }
    LevelIsolated(v, ObservedRoot, view.Keys);
  }

  lemma {:induction false} ResolvedIsolated(resolved: map<string, Value>)
    requires Regular(Map(resolved), ResolvedRoot) && Unambiguous(Map(resolved - RESOLVED_EXCLUDED))
    ensures Isolated(Map(resolved), ResolvedRoot)
  {
    var v, view := Map(resolved), resolved - RESOLVED_EXCLUDED;
    forall k | k in v.fields ensures Isolated(v.fields[k], ChildPosition(ResolvedRoot, k)) {
      if k in RESOLVED_EXCLUDED { HiddenIsolated(v.fields[k]); }
      else { assert k in view; PlainIsolated(v.fields[k]); }
    }
    LevelIsolated(v, ResolvedRoot, view.Keys);
  }

  lemma {:induction false} PrefixedUnambiguous(roots: map<string, Value>, prefix: string, m: map<string, Value>)
    requires Unambiguous(Map(roots))
    requires forall k :: k in m ==> prefix + k in roots && roots[prefix + k] == m[k]
    ensures Unambiguous(Map(m))
  {
    var v := Map(roots);
    forall a, b | a in m && b in m && PathCovers(a, b) ensures a == b {
      assert PathCovers(prefix + a, prefix + b) by {
        if a != b { assert (prefix + b)[..|prefix + a| + 1] == prefix + b[..|a| + 1]; }
      }
      assert prefix + a in v.fields && prefix + b in v.fields;
      assert a == (prefix + a)[|prefix|..] && b == (prefix + b)[|prefix|..];
    }
    forall k | k in m ensures Unambiguous(m[k]) {
      assert prefix + k in v.fields;
    }
  }

  lemma {:induction false} RootsContain(r: Record)
    ensures forall k :: k in r.resolved - RESOLVED_EXCLUDED ==>
      "resolved." + k in Roots(r) && Roots(r)["resolved." + k] == (r.resolved - RESOLVED_EXCLUDED)[k]
    ensures forall k :: k in ObservedView(r.observed) ==>
      "observed." + k in Roots(r) && Roots(r)["observed." + k] == ObservedView(r.observed)[k]
    ensures forall k :: k in REQUESTED ==> k in Roots(r) && Roots(r)[k] == Requested(r.requested)[k]
  {
    var resolved := Prefixed("resolved.", r.resolved - RESOLVED_EXCLUDED);
    var observed := Prefixed("observed.", ObservedView(r.observed));
    DisjointRoots(r, resolved, observed);
  }

  ghost predicate RegularRecord(r: Record) {
    Regular(Map(r.resolved), ResolvedRoot) && Regular(Map(r.observed), ObservedRoot)
  }

  ghost predicate UnambiguousRecord(r: Record) {
    Unambiguous(Map(Roots(r)))
  }

  lemma {:induction false} TopIsolated(fields: map<string, Value>)
    requires forall k :: k in fields ==> '.' !in k && Isolated(fields[k], ChildPosition(Top, k))
    ensures Isolated(Map(fields), Top)
  {
    var v := Map(fields);
    forall a, b | a in v.fields && b in v.fields && PathCovers(a, b) ensures a == b {
      if a != b { ProperExtensionHasDot(a, b); }
    }
  }

  lemma {:induction false} TopRegular(fields: map<string, Value>)
    requires forall k :: k in fields ==> '.' !in k && Regular(fields[k], ChildPosition(Top, k))
    ensures Regular(Map(fields), Top)
  {
    var v := Map(fields);
    forall k, s | k in v.fields && s in Special(Top) && PathCovers(s, k) ensures k == s {
      if k != s { ProperExtensionHasDot(s, k); }
    }
  }

  lemma {:induction false} TreeFields(r: Record, k: string)
    requires k in RawTree(r).fields
    ensures '.' !in k && k != ""
    ensures k == "resolved" ==> RawTree(r).fields[k] == Map(r.resolved)
    ensures k == "observed" ==> RawTree(r).fields[k] == Map(r.observed)
    ensures k != "resolved" && k != "observed" ==>
      k in REQUESTED && RawTree(r).fields[k] == Requested(r.requested)[k] && ChildPosition(Top, k) == Plain
  {
    RootKeysAreDotFree(k);
  }

  lemma {:induction false} RecordIsolated(r: Record)
    requires RegularRecord(r) && UnambiguousRecord(r)
    ensures Isolated(RawTree(r), Top)
  {
    RootsContain(r);
    PrefixedUnambiguous(Roots(r), "resolved.", r.resolved - RESOLVED_EXCLUDED);
    PrefixedUnambiguous(Roots(r), "observed.", ObservedView(r.observed));
    ResolvedIsolated(r.resolved);
    ObservedIsolated(r.observed);
    var v := RawTree(r);
    forall k | k in v.fields ensures '.' !in k && Isolated(v.fields[k], ChildPosition(Top, k)) {
      TreeFields(r, k);
      if k != "resolved" && k != "observed" { PlainIsolated(Roots(r)[k]); }
    }
    TopIsolated(v.fields);
  }

  lemma {:induction false} RequestedRegular(v: Value)
    ensures Regular(v, Plain)
  {
    if v.Map? { forall k | k in v.fields { RequestedRegular(v.fields[k]); } }
  }

  lemma {:induction false} TreeRegular(r: Record)
    requires RegularRecord(r)
    ensures Regular(RawTree(r), Top)
  {
    var v := RawTree(r);
    forall k | k in v.fields ensures '.' !in k && Regular(v.fields[k], ChildPosition(Top, k)) {
      TreeFields(r, k);
      if k != "resolved" && k != "observed" { RequestedRegular(v.fields[k]); }
    }
    TopRegular(v.fields);
  }

  lemma {:induction false} TreePathOk(r: Record)
    ensures PathOk(RawTree(r), Top, "")
  {
    if "" in RawTree(r).fields { TreeFields(r, ""); }
  }

  // ----- the dimension theorems, for whole records -----

  /** The leaves below a resolved dimension are those of the value it found, seen from its position. */
  lemma {:induction false} DimensionGovernsItsValue(r: Record, d: string, w: Value)
    requires RegularRecord(r) && UnambiguousRecord(r) && ResolveDimension(r, d) == Found(w)
    ensures Under(VisibleLeaves(r), d) == Visible(w, EndPosition(RawTree(r), Top, Split(d)), d)
  {
    RecordIsolated(r);
    ResolveIsTreeWalk(r, d, w);
    JoinSplit(d);
    TreePathOk(r);
    IsolatedIsClear(RawTree(r), Top, Split(d));
    CoveredByResolution(RawTree(r), Top, "", Split(d), w);
  }

  /** Equal raw values at a dimension show equal leaves below it, but for a sequence above it on one side. */
  lemma {:induction false} CoherentDimension(l: Record, r: Record, d: string, w: Value)
    requires RegularRecord(l) && UnambiguousRecord(l) && RegularRecord(r) && UnambiguousRecord(r)
    requires ResolveDimension(l, d) == Found(w) && ResolveDimension(r, d) == Found(w)
    ensures Under(VisibleLeaves(l), d) == Under(VisibleLeaves(r), d)
      || ThroughSequence(VisibleLeaves(l), d)
      || ThroughSequence(VisibleLeaves(r), d)
  {
    DimensionGovernsItsValue(l, d, w);
    DimensionGovernsItsValue(r, d, w);
    DimensionEndsWhereNamed(l, d, w);
    DimensionEndsWhereNamed(r, d, w);
  }

  lemma {:induction false} TopEndsWhereNamed(v: Value, d: string, w: Value)
    requires Regular(v, Top) && PathOk(v, Top, "") && ResolveIn(v, Split(d)) == Some(w)
    ensures EndPosition(v, Top, Split(d)) == NamedPosition(Top, Split(d))
      || ThroughSequence(Visible(v, Top, ""), d)
  {
    JoinSplit(d);
    EndsWhereNamed(v, Top, "", Split(d), w);
    assert Child("", Join(Split(d))) == d;
  }

  lemma {:induction false} DimensionEndsWhereNamed(r: Record, d: string, w: Value)
    requires RegularRecord(r) && ResolveDimension(r, d) == Found(w)
    ensures EndPosition(RawTree(r), Top, Split(d)) == NamedPosition(Top, Split(d))
      || ThroughSequence(VisibleLeaves(r), d)
  {
    var tree := RecordWalk(r, d, w);
    TopEndsWhereNamed(tree, d, w);
  }

  lemma {:induction false} RecordWalk(r: Record, d: string, w: Value) returns (tree: Value)
    requires RegularRecord(r) && ResolveDimension(r, d) == Found(w)
    ensures tree == RawTree(r)
    ensures Regular(tree, Top) && PathOk(tree, Top, "") && ResolveIn(tree, Split(d)) == Some(w)
  {
    TreeRegular(r);
    TreePathOk(r);
    ResolveIsTreeWalk(r, d, w);
    tree := RawTree(r);
  }

  // ----- a flattened path leads back to its leaf -----

  /** In a prefix-free mapping, a walk along a path through `key` takes `key` and nothing longer. */
  lemma {:induction false} WalkTakesKey(v: Value, key: string, rest: seq<string>)
    requires v.Map? && PrefixFree(v.fields.Keys) && key in v.fields
    ensures ResolveIn(v, Split(key) + rest) == ResolveIn(v.fields[key], rest)
  {
    var segments, n := Split(key) + rest, |Split(key)|;
    var end := LongestKey(v.fields.Keys, segments, |segments|);
    JoinSplit(key);
    assert segments[..n] == Split(key) && segments[n..] == rest;
    if end > n {
      var front := segments[..end];
      assert front[..n] == Split(key);
      SegmentsSplit(front, n);
    }
  }

  /** Looking a leaf's own path up in the tree it was flattened from finds that leaf. */
  lemma {:induction false} PathLeadsBack(v: Value, path: string, leaf: (string, Value)) returns (rest: string)
    requires Unambiguous(v) && path != "" && leaf in Leaves(v, path) && leaf.0 != path
    ensures leaf.0 == path + "." + rest && ResolveIn(v, Split(rest)) == Some(leaf.1)
  {
    var k :| k in v.fields && leaf in Leaves(v.fields[k], Child(path, k));
    if leaf.0 == Child(path, k) {
      rest := k;
      WalkTakesKey(v, k, []);
      assert Split(k) + [] == Split(k);
      OwnPathIsWhole(v.fields[k], Child(path, k), leaf);
    } else {
      var below := PathLeadsBack(v.fields[k], Child(path, k), leaf);
      rest := k + "." + below;
      SplitConcat(k, below);
      WalkTakesKey(v, k, Split(below));
      ChildAssociative(path, k, below);
    }
  }

  /** Every visible leaf of an unambiguous record is found again in its roots by its own full path. */
  lemma {:induction false} RecordPathLeadsBack(r: Record, leaf: (string, Value))
    requires UnambiguousRecord(r) && leaf in VisibleLeaves(r)
    ensures ResolveIn(Map(Roots(r)), Split(leaf.0)) == Some(leaf.1)
  {
    RootsNotEmpty(r);
    SameLeaf(r, leaf);
    RootPathLeadsBack(Map(Roots(r)), leaf);
  }

  lemma {:induction false} RootPathLeadsBack(v: Value, leaf: (string, Value))
    requires v.Map? && Unambiguous(v) && "" !in v.fields && HasLeaf(v.fields, leaf)
    ensures ResolveIn(v, Split(leaf.0)) == Some(leaf.1)
  {
    var k :| k in v.fields && leaf in Leaves(v.fields[k], k);
    if leaf.0 == k {
      WalkTakesKey(v, k, []);
      assert Split(k) + [] == Split(k);
      OwnPathIsWhole(v.fields[k], k, leaf);
    } else {
      var rest := PathLeadsBack(v.fields[k], k, leaf);
      SplitConcat(k, rest);
      WalkTakesKey(v, k, Split(rest));
    }
  }

  lemma {:induction false} OwnPathIsWhole(v: Value, path: string, leaf: (string, Value))
    requires path != "" && leaf in Leaves(v, path) && leaf.0 == path
    ensures leaf.1 == v
  {
    if v.Map? && v.fields != map[] {
      var k :| k in v.fields && leaf in Leaves(v.fields[k], Child(path, k));
      LeavesAreCovered(v.fields[k], Child(path, k));
      PathItselfIsAbove(path, k);
    }
  }
}
