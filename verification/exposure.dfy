/**
 * Which declarations a projection can deceive. A declaration is looked up in the raw record and its leaves are those
 * of the projected one; the two agree for every unambiguous record unless the declaration is exposed.
 */
module Exposure {
  import opened Paths
  import opened Wrappers
  import opened Evidence
  import opened Records
  import opened Resolve
  import opened Visibility
  import opened Coherence

  /** No step of the name is an excluded key, and it does not enter `invocations`. */
  predicate Open(pos: Position, segments: seq<string>)
    decreases |segments|
  {
    pos !in {Hidden, Invocations, Row} && (segments == [] || Open(ChildPosition(pos, segments[0]), segments[1..]))
  }

  /** A value of `observed.invocations` of which nothing is compared. */
  predicate ShowsNoRow(w: Value) {
    w.Seq? ==> forall i :: 0 <= i < |w.items| ==> RowView(w.items[i]).None?
  }

  predicate EntersInvocations(segments: seq<string>) {
    |segments| >= 2 && segments[0] == "observed" && segments[1] == "invocations"
  }

  /**
   * The declaration names an excluded place, or goes into `observed.invocations`, or names a component whose value
   * carries the `source` that the projection drops.
   */
  ghost predicate Exposed(d: string, w: Value) {
    var segments := Split(d);
    if EntersInvocations(segments) then |segments| > 2 || ShowsNoRow(w)
    else match NamedPosition(Top, segments)
      case Hidden => true
      case Component => w.Map? && "source" in w.fields && Unambiguous(w)
      case _ => false
  }

  // ----- an open name is clear in every unambiguous record -----

  /** What the projection makes of a mapping at this position is unambiguous. */
  ghost predicate ViewOk(v: Value, pos: Position) {
    match pos
    case ResolvedRoot => v.Map? && Unambiguous(Map(v.fields - RESOLVED_EXCLUDED))
    case ObservedRoot => v.Map? && Unambiguous(Map(ObservedView(v.fields)))
    case Identity => Unambiguous(IdentityView(v))
    case Component => Unambiguous(WithoutSource(v))
    case Plain => Unambiguous(v)
    case _ => false
  }

  /** The keys of that view. */
  ghost function ViewKeys(v: Value, pos: Position): set<string>
    requires v.Map?
  {
    match pos
    case ResolvedRoot => v.fields.Keys - RESOLVED_EXCLUDED
    case ObservedRoot => ObservedView(v.fields).Keys
    case Identity => IdentityView(v).fields.Keys
    case Component => WithoutSource(v).fields.Keys
    case _ => v.fields.Keys
  }

  lemma {:induction false} FirstSegment(segments: seq<string>, end: nat, k: string)
    requires 1 <= end <= |segments| && DotFree(segments)
    requires PathCovers(k, Join(segments[..end])) || PathCovers(Join(segments[..end]), k)
    ensures Split(k)[0] == segments[0]
  {
    var key := Join(segments[..end]);
    SplitJoin(segments[..end]);
    CoversIsSegmentPrefix(k, key);
    CoversIsSegmentPrefix(key, k);
  }

  /** A key that starts with an open segment is part of the view. */
  lemma {:induction false} OpenKeyInView(v: Value, pos: Position, k: string)
    requires v.Map? && ViewOk(v, pos) && k in v.fields && ChildPosition(pos, Split(k)[0]) !in {Hidden, Invocations}
    ensures k in ViewKeys(v, pos)
  {
    if k in Special(pos) {
      SpecialKeysAreDotFree(pos, k);
      SplitDotFree(k);
    }
  }

  lemma {:induction false} ChosenIsAlone(v: Value, pos: Position, segments: seq<string>, end: nat)
    requires v.Map? && ViewOk(v, pos) && DotFree(segments) && 1 <= end <= |segments|
    requires Join(segments[..end]) in v.fields && ChildPosition(pos, segments[0]) !in {Hidden, Invocations}
    ensures Alone(v, pos, Join(segments[..end]))
    ensures Join(segments[..end]) in ViewKeys(v, pos)
  {
    var key := Join(segments[..end]);
    FirstSegment(segments, end, key);
    OpenKeyInView(v, pos, key);
    ViewKeysPrefixFree(v, pos);
    forall k | k in v.fields && (PathCovers(k, key) || PathCovers(key, k)) ensures k == key {
      FirstSegment(segments, end, k);
      OpenKeyInView(v, pos, k);
    }
  }

  lemma {:induction false} ViewKeysPrefixFree(v: Value, pos: Position)
    requires v.Map? && ViewOk(v, pos)
    ensures PrefixFree(ViewKeys(v, pos))
  {
    match pos
    case ResolvedRoot => assert Map(v.fields - RESOLVED_EXCLUDED).fields.Keys == ViewKeys(v, pos);
    case ObservedRoot => assert Map(ObservedView(v.fields)).fields.Keys == ViewKeys(v, pos);
    case _ =>
  }

  lemma {:induction false} ChildViewOk(v: Value, pos: Position, key: string)
    requires v.Map? && ViewOk(v, pos) && key in v.fields && key in ViewKeys(v, pos)
    requires ChildPosition(pos, key) !in {Hidden, Invocations}
    ensures ViewOk(v.fields[key], ChildPosition(pos, key))
  {
    match pos
    case ResolvedRoot => assert Map(v.fields - RESOLVED_EXCLUDED).fields[key] == v.fields[key];
    case ObservedRoot =>
      assert Unambiguous(Map(ObservedView(v.fields)).fields[key]);
    case Identity => assert Unambiguous(IdentityView(v).fields[key]);
    case Component => assert Unambiguous(WithoutSource(v).fields[key]);
    case Plain =>
  }

  /** Below a joined key nothing is special any more. */
  lemma {:induction false} AfterKey(pos: Position, segments: seq<string>, end: nat)
    requires Open(pos, segments) && DotFree(segments) && 1 <= end <= |segments|
    ensures ChildPosition(pos, segments[0]) !in {Hidden, Invocations}
    ensures end == 1 ==> Join(segments[..end]) == segments[0]
    ensures end > 1 && pos != Top ==> ChildPosition(pos, Join(segments[..end])) == Plain
    ensures pos != Top || end == 1 ==> Open(ChildPosition(pos, Join(segments[..end])), segments[end..])
  {
    var key := Join(segments[..end]);
    if end > 1 {
      SegmentsSplit(segments[..end], 1);
      assert segments[..end][..1] == [segments[0]];
      assert key[|segments[0]|] == '.';
      if key in Special(pos) { SpecialKeysAreDotFree(pos, key); }
      PlainIsOpen(segments[end..]);
    }
  }

  lemma {:induction false} PlainIsOpen(segments: seq<string>)
    ensures Open(Plain, segments)
  {
    if segments != [] { PlainIsOpen(segments[1..]); }
  }

  lemma {:induction false} OpenIsClear(v: Value, pos: Position, segments: seq<string>)
    requires ViewOk(v, pos) && Open(pos, segments) && DotFree(segments)
    ensures Clear(v, pos, segments)
    ensures ResolveIn(v, segments).Some? && EndPosition(v, pos, segments) != Hidden ==>
      ViewOk(ResolveIn(v, segments).value, EndPosition(v, pos, segments))
    decreases |segments|
  {
    if segments != [] && v.Map? {
      var end := LongestKey(v.fields.Keys, segments, |segments|);
      if end != 0 {
        var key := Join(segments[..end]);
        AfterKey(pos, segments, end);
        ChosenIsAlone(v, pos, segments, end);
        ChildViewOk(v, pos, key);
        OpenIsClear(v.fields[key], ChildPosition(pos, key), segments[end..]);
      }
    }
  }

  // ----- where an open name ends -----

  /** The walk ends where the name says, or shows a component whole that was spelled as one dotted key. */
  predicate EndsThere(end: Position, named: Position) {
    end == named || (end == Plain && named == Component)
  }

  /** More than one segment below a root or a component leads to a component or to a plain place. */
  lemma {:induction false} DeepNames(pos: Position, segments: seq<string>)
    requires Open(pos, segments) && pos != Top && |segments| >= 2
    ensures NamedPosition(pos, segments) in {Component, Plain}
    ensures NamedPosition(pos, segments) == Component ==> |segments| == 2 && pos == ObservedRoot
  {
    NamedIsChild(pos, segments);
    NamedIsChild(ChildPosition(pos, segments[0]), segments[1..]);
    var first := ChildPosition(pos, segments[0]);
    var second := ChildPosition(first, segments[1]);
    assert first == ChildPosition(pos, segments[0]) && Open(first, segments[1..]) && segments[1..][0] == segments[1];
    assert Open(second, segments[1..][1..]);
    assert first in {Plain, Identity, Component} && second in {Component, Plain};
    assert segments[1..][1..] == segments[2..];
    if |segments| > 2 { OneMoreName(second, segments[2..]); }
  }

  lemma {:induction false} NamedIsChild(pos: Position, segments: seq<string>)
    requires Open(pos, segments) && segments != []
    ensures NamedPosition(pos, segments) == NamedPosition(ChildPosition(pos, segments[0]), segments[1..])
  {
    PlainStaysPlain(segments[1..]);
  }

  lemma {:induction false} OneMoreName(pos: Position, segments: seq<string>)
    requires Open(pos, segments) && pos in {Component, Plain} && segments != []
    ensures NamedPosition(pos, segments) == Plain
  {
    NamedIsChild(pos, segments);
    PlainStaysPlain(segments[1..]);
  }

  lemma {:induction false} PlainEnds(v: Value, path: string, segments: seq<string>, w: Value)
    requires path != "" && DotFree(segments) && ResolveIn(v, segments) == Some(w)
    ensures EndPosition(v, Plain, segments) == Plain
      || ThroughSequence(Visible(v, Plain, path), Child(path, Join(segments)))
  {
    RequestedRegular(v);
    EndsWhereNamed(v, Plain, path, segments, w);
    PlainStaysPlain(segments);
  }

  lemma {:induction false} OpenEnds(v: Value, pos: Position, path: string, segments: seq<string>, w: Value)
    requires Open(pos, segments) && pos != Top && path != "" && DotFree(segments)
    requires pos in {ResolvedRoot, ObservedRoot} ==> v.Map?
    requires ResolveIn(v, segments) == Some(w)
    ensures EndsThere(EndPosition(v, pos, segments), NamedPosition(pos, segments))
      || ThroughSequence(Visible(v, pos, path), Child(path, Join(segments)))
    decreases |segments|
  {
    if segments != [] {
      match v
      case Map(fields) => OpenEndsBelow(v, pos, path, segments, w);
      case Seq(_) =>
        assert Visible(v, pos, path) == {(path, v)};
        PathItselfIsAbove(path, Join(segments));
        assert OpaqueAncestor(Visible(v, pos, path), Child(path, Join(segments)), (path, v));
    }
  }

  lemma {:induction false} OpenEndsBelow(v: Value, pos: Position, path: string, segments: seq<string>, w: Value)
    requires v.Map? && Open(pos, segments) && pos != Top && path != "" && DotFree(segments) && segments != []
    requires ResolveIn(v, segments) == Some(w)
    ensures EndsThere(EndPosition(v, pos, segments), NamedPosition(pos, segments))
      || ThroughSequence(Visible(v, pos, path), Child(path, Join(segments)))
    decreases |segments|, 0
  {
    var end := LongestKey(v.fields.Keys, segments, |segments|);
    var key, rest := Join(segments[..end]), segments[end..];
    var child, childPos := v.fields[key], ChildPosition(pos, key);
    AfterKey(pos, segments, end);
    if end == 1 {
      NamedIsChild(pos, segments);
      OpenEnds(child, childPos, Child(path, key), rest, w);
    } else {
      DeepNames(pos, segments);
      PlainEnds(child, Child(path, key), rest, w);
    }
    if !EndsThere(EndPosition(child, childPos, rest), NamedPosition(pos, segments)) {
      SequenceBelow(v, pos, path, segments, end);
    }
  }

  /** A sequence above the dimension in a visible child is one in the mapping. */
  lemma {:induction false} SequenceBelow(v: Value, pos: Position, path: string, segments: seq<string>, end: nat)
    requires v.Map? && pos !in {Hidden, Invocations} && path != "" && 1 <= end <= |segments|
    requires Join(segments[..end]) in v.fields
    requires var key := Join(segments[..end]);
      ThroughSequence(Visible(v.fields[key], ChildPosition(pos, key), Child(path, key)),
                      Child(Child(path, key), Join(segments[end..])))
    requires end < |segments|
    ensures ThroughSequence(Visible(v, pos, path), Child(path, Join(segments)))
  {
    var key := Join(segments[..end]);
    var leaf :| OpaqueAncestor(Visible(v.fields[key], ChildPosition(pos, key), Child(path, key)),
                               Child(Child(path, key), Join(segments[end..])), leaf);
    ChildOfJoined(path, segments, end);
    assert leaf in VisibleChildren(v, pos, path);
    assert OpaqueAncestor(Visible(v, pos, path), Child(path, Join(segments)), leaf);
  }

  // ----- whole records -----

  lemma {:induction false} NotHiddenIsOpen(pos: Position, segments: seq<string>)
    requires pos !in {Hidden, Invocations, Row} && NamedPosition(pos, segments) != Hidden
    requires pos == Top ==> !EntersInvocations(segments)
    requires pos == ObservedRoot && segments != [] ==> segments[0] != "invocations"
    ensures Open(pos, segments)
    decreases |segments|
  {
    if segments != [] {
      HiddenStaysHidden(segments[1..]);
      PlainIsOpen(segments[1..]);
      if segments[0] in Special(pos) { NotHiddenIsOpen(ChildPosition(pos, segments[0]), segments[1..]); }
    }
  }

  lemma {:induction false} RootsViewOk(r: Record, key: string)
    requires UnambiguousRecord(r) && key in RawTree(r).fields
    ensures ViewOk(RawTree(r).fields[key], ChildPosition(Top, key))
  {
    RootsContain(r);
    TreeFields(r, key);
    PrefixedUnambiguous(Roots(r), "resolved.", r.resolved - RESOLVED_EXCLUDED);
    PrefixedUnambiguous(Roots(r), "observed.", ObservedView(r.observed));
    if key in REQUESTED { assert Unambiguous(Map(Roots(r)).fields[key]); }
  }

  lemma {:induction false} RootBelow(r: Record, root: string) returns (child: Value, pos: Position)
    requires UnambiguousRecord(r) && root in RawTree(r).fields
    ensures child == RawTree(r).fields[root] && pos == ChildPosition(Top, root) && ViewOk(child, pos)
    ensures pos == ObservedRoot ==> child.Map?
  {
    child, pos := RawTree(r).fields[root], ChildPosition(Top, root);
    RootsViewOk(r, root);
  }

  /** The first step of every walk through a record: the root is the only key that can be taken. */
  lemma {:induction false} RootStep(r: Record, segments: seq<string>, w: Value)
    requires segments != [] && DotFree(segments) && ResolveIn(RawTree(r), segments) == Some(w)
    ensures segments[0] in RawTree(r).fields && Alone(RawTree(r), Top, segments[0])
    ensures LongestKey(RawTree(r).fields.Keys, segments, |segments|) == 1 && Join(segments[..1]) == segments[0]
    ensures ResolveIn(RawTree(r).fields[segments[0]], segments[1..]) == Some(w)
    ensures Clear(RawTree(r).fields[segments[0]], ChildPosition(Top, segments[0]), segments[1..]) ==>
      Clear(RawTree(r), Top, segments)
    ensures EndPosition(RawTree(r), Top, segments)
         == EndPosition(RawTree(r).fields[segments[0]], ChildPosition(Top, segments[0]), segments[1..])
  {
    var v := RawTree(r);
    forall k | k in v.fields.Keys ensures '.' !in k { RootKeysAreDotFree(k); }
    LongestKeyDotFree(v.fields.Keys, segments, |segments|);
    assert segments[..1] == [segments[0]];
    forall k | k in v.fields && (PathCovers(k, segments[0]) || PathCovers(segments[0], k)) ensures k == segments[0] {
      if k != segments[0] {
        if PathCovers(k, segments[0]) { ProperExtensionHasDot(k, segments[0]); }
        else { ProperExtensionHasDot(segments[0], k); }
      }
    }
  }

  /** A walk that is clear below its root governs the leaves of the value it found. */
  lemma {:induction false} ClearDimension(
      r: Record, d: string, segments: seq<string>, child: Value, pos: Position, rest: seq<string>, w: Value)
    requires ResolveDimension(r, d) == Found(w) && segments == Split(d) && rest == segments[1..]
    requires segments[0] in RawTree(r).fields && child == RawTree(r).fields[segments[0]]
    requires pos == ChildPosition(Top, segments[0]) && Clear(child, pos, rest)
    ensures Under(VisibleLeaves(r), d) == Visible(w, EndPosition(child, pos, rest), d)
  {
    ResolveIsTreeWalk(r, d, w);
    RootStep(r, segments, w);
    JoinSplit(d);
    TreePathOk(r);
    CoveredByResolution(RawTree(r), Top, "", segments, w);
  }

  lemma {:induction false} RestIsDotFree(segments: seq<string>, rest: seq<string>)
    requires DotFree(segments) && segments != [] && rest == segments[1..]
    ensures DotFree(rest)
  {
    assert forall i :: 0 <= i < |rest| ==> segments[i + 1] == rest[i];
  }

  /** The leaves below an open dimension are those of the value it found, at the place where the walk ended. */
  lemma {:induction false} OpenDimension(r: Record, d: string, w: Value)
    requires UnambiguousRecord(r) && ResolveDimension(r, d) == Found(w) && Open(Top, Split(d))
    ensures Under(VisibleLeaves(r), d) == Visible(w, EndPosition(RawTree(r), Top, Split(d)), d)
    ensures EndPosition(RawTree(r), Top, Split(d)) != Hidden ==> ViewOk(w, EndPosition(RawTree(r), Top, Split(d)))
  {
    var segments := Split(d);
    ResolveIsTreeWalk(r, d, w);
    RootStep(r, segments, w);
    var child, pos := RootBelow(r, segments[0]);
    RestIsDotFree(segments, segments[1..]);
    OpenIsClear(child, pos, segments[1..]);
    ClearDimension(r, d, segments, child, pos, segments[1..], w);
  }

  lemma {:induction false} RootIsMapping(r: Record, root: string, child: Value, pos: Position)
    requires root in RawTree(r).fields && child == RawTree(r).fields[root] && pos == ChildPosition(Top, root)
    ensures pos == ResolvedRoot || pos == ObservedRoot ==> child.Map?
    ensures pos != Top
  {}

  lemma {:induction false} TopSequence(r: Record, root: string, d: string, leaves: LeafSet)
    requires root in RawTree(r).fields && leaves == Visible(RawTree(r).fields[root], ChildPosition(Top, root), root)
    requires ThroughSequence(leaves, d)
    ensures ThroughSequence(VisibleLeaves(r), d)
  {
    var leaf :| OpaqueAncestor(leaves, d, leaf);
    TopShowsItsFields(RawTree(r).fields, leaf);
    assert ShowsBelowTop(RawTree(r).fields, leaf);
    assert OpaqueAncestor(VisibleLeaves(r), d, leaf);
  }

  lemma {:induction false} BelowRootPath(segments: seq<string>, d: string)
    requires segments == Split(d) && |segments| >= 2 && segments[0] != ""
    ensures Child(segments[0], Join(segments[1..])) == d
  {
    JoinSplit(d);
    SegmentsSplit(segments, 1);
    assert Join(segments[..1]) == segments[0];
  }

  /** An open dimension ends where its name says, unless a sequence is in the way. */
  lemma {:induction false} OpenDimensionEnds(r: Record, d: string, w: Value)
    requires ResolveDimension(r, d) == Found(w) && Open(Top, Split(d))
    ensures EndsThere(EndPosition(RawTree(r), Top, Split(d)), NamedPosition(Top, Split(d)))
      || ThroughSequence(VisibleLeaves(r), d)
  {
    var tree, segments := RawTree(r), Split(d);
    var root, rest := segments[0], segments[1..];
    ResolveIsTreeWalk(r, d, w);
    RootStep(r, segments, w);
    NamedIsChild(Top, segments);
    if rest != [] {
      var child, pos := tree.fields[root], ChildPosition(Top, root);
      RootIsMapping(r, root, child, pos);
      OpenEnds(child, pos, root, rest, w);
      BelowRootPath(segments, d);
      if ThroughSequence(Visible(child, pos, root), d) { TopSequence(r, root, d, Visible(child, pos, root)); }
    }
  }

  /** A dotted extension of a special key of the observed root is a root of its own. */
  lemma {:induction false} ExtensionInView(observed: map<string, Value>, key: string, k: string)
    requires k in observed && PathCovers(key, k) && k != key
    ensures k in ObservedView(observed)
  {
    ProperExtensionHasDot(key, k);
    if k in Special(ObservedRoot) { SpecialKeysAreDotFree(ObservedRoot, k); }
  }

  lemma {:induction false} InvocationsAlone(v: Value, key: string)
    requires v.Map? && PrefixFree(ObservedView(v.fields).Keys)
    requires key == "invocations" && key in v.fields && !ShowsNoRow(v.fields[key])
    ensures Alone(v, ObservedRoot, key)
  {
    var rows := v.fields[key].items;
    RowViewsContents(rows, |rows|, RowViews(rows, |rows|));
    assert key in ObservedView(v.fields);
    forall k | k in v.fields && k != key && PathCovers(key, k) ensures k in ObservedView(v.fields) {
      ExtensionInView(v.fields, key, k);
    }
    forall k | k in v.fields && k != key && PathCovers(k, key) ensures '.' in key {
      ProperExtensionHasDot(k, key);
    }
  }

  lemma {:induction false} OneKeyWalk(v: Value, pos: Position, key: string, w: Value)
    requires v.Map? && ResolveIn(v, [key]) == Some(w)
    ensures key in v.fields && v.fields[key] == w
    ensures Alone(v, pos, key) ==> Clear(v, pos, [key])
    ensures EndPosition(v, pos, [key]) == ChildPosition(pos, key)
  {
    var segments := [key];
    assert segments[..1] == segments && Join(segments) == key && segments[1..] == [];
    assert LongestKey(v.fields.Keys, segments, 1) == 1;
  }

  lemma {:induction false} ShownRowsAlone(v: Value, segments: seq<string>, w: Value)
    requires v.Map? && PrefixFree(ObservedView(v.fields).Keys) && |segments| == 1 && segments[0] == "invocations"
    requires ResolveIn(v, segments) == Some(w) && !ShowsNoRow(w)
    ensures Clear(v, ObservedRoot, segments) && EndPosition(v, ObservedRoot, segments) == Invocations
  {
    assert segments == [segments[0]];
    OneKeyWalk(v, ObservedRoot, segments[0], w);
    InvocationsAlone(v, segments[0]);
  }

  lemma {:induction false} ObservedIsRoot(k: string)
    requires k == "observed"
    ensures ChildPosition(Top, k) == ObservedRoot
  {}

  /** The walk to `observed.invocations` goes through the root `observed`. */
  lemma {:induction false} ObservedStep(r: Record, segments: seq<string>, w: Value)
    returns (child: Value, pos: Position, rest: seq<string>)
    requires |segments| == 2 && DotFree(segments) && EntersInvocations(segments) && UnambiguousRecord(r)
    requires ResolveIn(RawTree(r), segments) == Some(w)
    ensures segments[0] in RawTree(r).fields && child == RawTree(r).fields[segments[0]]
    ensures pos == ChildPosition(Top, segments[0]) == ObservedRoot
    ensures child.Map? && PrefixFree(ObservedView(child.fields).Keys)
    ensures rest == segments[1..] && |rest| == 1 && rest[0] == "invocations" && ResolveIn(child, rest) == Some(w)
  {
    RootStep(r, segments, w);
    rest := segments[1..];
    ObservedIsRoot(segments[0]);
    child, pos := RootBelow(r, segments[0]);
    ViewKeysPrefixFree(child, pos);
  }

  /** Rows that are compared keep dotted extensions of `invocations` out of an unambiguous record. */
  lemma {:induction false} ShownInvocations(r: Record, d: string, segments: seq<string>, w: Value)
    requires UnambiguousRecord(r) && ResolveDimension(r, d) == Found(w) && segments == Split(d)
    requires |segments| == 2 && EntersInvocations(segments) && !ShowsNoRow(w)
    ensures Under(VisibleLeaves(r), d) == Visible(w, Invocations, d)
  {
    ResolveIsTreeWalk(r, d, w);
    var child, pos, rest := ObservedStep(r, segments, w);
    ShownRowsAlone(child, rest, w);
    ClearDimension(r, d, segments, child, pos, rest, w);
  }

  lemma {:induction false} NoSourceNoDifference(w: Value, path: string)
    requires path != "" && !(w.Map? && "source" in w.fields)
    ensures Visible(w, Plain, path) == Visible(w, Component, path)
  {
    PlainIsLeaves(w, path);
    ComponentLeaves(w, path);
    if w.Map? { assert w.fields - {"source"} == w.fields; }
  }

  /** Off the exposed places, equal raw values at a dimension show equal leaves below it in all unambiguous records. */
  lemma {:induction false} UnexposedAgree(l: Record, r: Record, d: string, w: Value)
    requires UnambiguousRecord(l) && UnambiguousRecord(r) && !Exposed(d, w)
    requires ResolveDimension(l, d) == Found(w) && ResolveDimension(r, d) == Found(w)
    ensures Under(VisibleLeaves(l), d) == Under(VisibleLeaves(r), d)
      || ThroughSequence(VisibleLeaves(l), d)
      || ThroughSequence(VisibleLeaves(r), d)
  {
    UnexposedNames(d, w, Split(d));
    if EntersInvocations(Split(d)) {
      RowsAgree(l, r, d, w, Split(d));
    } else {
      NotHiddenIsOpen(Top, Split(d));
      OpenAgree(l, r, d, w);
    }
  }

  /** The two kinds of declarations that are not exposed. */
  lemma {:induction false} UnexposedNames(d: string, w: Value, segments: seq<string>)
    requires segments == Split(d) && !Exposed(d, w)
    ensures EntersInvocations(segments) ==> |segments| == 2 && !ShowsNoRow(w)
    ensures !EntersInvocations(segments) ==>
      && NamedPosition(Top, segments) != Hidden
      && (NamedPosition(Top, segments) == Component ==> !(w.Map? && "source" in w.fields && Unambiguous(w)))
  {}

  lemma {:induction false} RowsAgree(l: Record, r: Record, d: string, w: Value, segments: seq<string>)
    requires UnambiguousRecord(l) && UnambiguousRecord(r) && segments == Split(d)
    requires |segments| == 2 && EntersInvocations(segments) && !ShowsNoRow(w)
    requires ResolveDimension(l, d) == Found(w) && ResolveDimension(r, d) == Found(w)
    ensures Under(VisibleLeaves(l), d) == Under(VisibleLeaves(r), d)
  {
    ShownInvocations(l, d, segments, w);
    ShownInvocations(r, d, segments, w);
  }

  lemma {:induction false} SamePlace(w: Value, d: string, left: Position, right: Position, named: Position)
    requires d != "" && EndsThere(left, named) && EndsThere(right, named)
    requires left == Plain || right == Plain ==> Unambiguous(w)
    requires named == Component ==> !(w.Map? && "source" in w.fields && Unambiguous(w))
    ensures Visible(w, left, d) == Visible(w, right, d)
  {
    if left != right { NoSourceNoDifference(w, d); }
  }

  lemma {:induction false} OpenAgree(l: Record, r: Record, d: string, w: Value)
    requires UnambiguousRecord(l) && UnambiguousRecord(r) && Open(Top, Split(d))
    requires NamedPosition(Top, Split(d)) == Component ==> !(w.Map? && "source" in w.fields && Unambiguous(w))
    requires ResolveDimension(l, d) == Found(w) && ResolveDimension(r, d) == Found(w)
    ensures Under(VisibleLeaves(l), d) == Under(VisibleLeaves(r), d)
      || ThroughSequence(VisibleLeaves(l), d)
      || ThroughSequence(VisibleLeaves(r), d)
  {
    var left, right := EndPosition(RawTree(l), Top, Split(d)), EndPosition(RawTree(r), Top, Split(d));
    OpenDimension(l, d, w);
    OpenDimension(r, d, w);
    OpenDimensionEnds(l, d, w);
    OpenDimensionEnds(r, d, w);
    DimensionNotEmpty(l, d, w);
    if EndsThere(left, NamedPosition(Top, Split(d))) && EndsThere(right, NamedPosition(Top, Split(d))) {
      SamePlace(w, d, left, right, NamedPosition(Top, Split(d)));
    }
  }

  lemma {:induction false} DimensionNotEmpty(r: Record, d: string, w: Value)
    requires ResolveDimension(r, d) == Found(w)
    ensures d != ""
  {
    assert Split("") == [""];
  }
}
