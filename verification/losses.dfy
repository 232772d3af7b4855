/**
 * What an exposed declaration can cost: for every one of them there are two records that the comparison calls free of
 * issues although they differ below it. So the exposed declarations are exactly the ones that cannot be trusted.
 */
module Losses {
  import opened Paths
  import opened Wrappers
  import opened Plans
  import opened Evidence
  import opened Records
  import opened Resolve
  import opened Visibility
  import opened Coherence
  import opened Exposure
  import opened Comparison
  import opened ComparisonTheorems

  function OneControl(d: string): Plan {
    Plan({}, {d}, {}, [], map[])
  }

  /** The two records differ at `p` below the control declaration `d`, and are reported free of issues. */
  ghost predicate Escapes(l: Record, r: Record, d: string, p: string) {
    && Accepted(OneControl(d)) && IssueFree(l, r, OneControl(d)) && Held(RoleOf(OneControl(d), p))
    && SideAt(VisibleLeaves(l), p) != SideAt(VisibleLeaves(r), p)
  }

  ghost predicate Lookalikes(l: Record, r: Record, d: string, w: Value) {
    ResolveDimension(l, d) == Found(w) && ResolveDimension(r, d) == Found(w)
  }

  /** They do so although the declaration finds `w` in both. */
  ghost predicate Deceives(l: Record, r: Record, d: string, w: Value, p: string) {
    Lookalikes(l, r, d, w) && Escapes(l, r, d, p)
  }

  lemma {:induction false} OneControlAccepted(d: string)
    requires IsDottedPath(d)
    ensures Accepted(OneControl(d))
  {
  }

  lemma {:induction false} UnderOneControl(d: string, p: string)
    requires PathCovers(d, p)
    ensures Held(RoleOf(OneControl(d), p))
  {
    var plan := OneControl(d);
    assert Declares(plan, p, Control, d);
    var m := RoleOf(plan, p);
    assert m.Direct? ==> Declares(plan, p, m.role, m.declaration);
  }

  lemma {:induction false} OneControlOk(l: Record, r: Record, d: string)
    requires DeclaredOk(l, r, Control, d)
    ensures DeclarationsOk(l, r, OneControl(d))
  {
  }

  ghost predicate AgreeOutside(l: LeafSet, r: LeafSet, d: string) {
    forall leaf: (string, Value) :: !PathCovers(d, leaf.0) ==> (leaf in l <==> leaf in r)
  }

  /** Two records that resolve a control alike and differ only below it raise no issue. */
  lemma {:induction false} DifferOnlyBelow(l: Record, r: Record, d: string, p: string, w: Value)
    requires l.status == Completed && r.status == Completed && UnambiguousRecord(l) && UnambiguousRecord(r)
    requires IsDottedPath(d) && ResolveDimension(l, d) == Found(w) && ResolveDimension(r, d) == Found(w)
    requires AgreeOutside(VisibleLeaves(l), VisibleLeaves(r), d)
    requires PathCovers(d, p) && SideAt(VisibleLeaves(l), p) != SideAt(VisibleLeaves(r), p)
    ensures Escapes(l, r, d, p)
  {
    OneControlAccepted(d);
    UnderOneControl(d, p);
    OneControlOk(l, r, d);
    OutsideSidesOk(l, r, d);
  }

  lemma {:induction false} OutsideSidesOk(l: Record, r: Record, d: string)
    requires UnambiguousRecord(l) && AgreeOutside(VisibleLeaves(l), VisibleLeaves(r), d)
    ensures LeavesOk(OneControl(d), VisibleLeaves(l), VisibleLeaves(r))
  {
    var left, right := VisibleLeaves(l), VisibleLeaves(r);
    forall q ensures LeafOk(OneControl(d), left, right, q) {
      if PathCovers(d, q) {
        UnderOneControl(d, q);
      } else {
        SharedOutside(left, right, d, q);
        RecordIsSingleValued(l, q);
        SharedSide(left, right, q);
      }
    }
  }

  lemma {:induction false} SharedOutside(l: LeafSet, r: LeafSet, d: string, q: string)
    requires AgreeOutside(l, r, d) && !PathCovers(d, q)
    ensures forall x :: (q, x) in l <==> (q, x) in r
  {
    forall x ensures (q, x) in l <==> (q, x) in r {
      var leaf := (q, x);
      assert !PathCovers(d, leaf.0);
    }
  }

  // ----- every record with an excluded observed key beside a dotted extension of it -----

  function Replaced(l: Record, key: string, w: Value): Record {
    l.(observed := l.observed[key := w])
  }

  lemma {:induction false} PairSplits(a: string, b: string)
    requires '.' !in a && '.' !in b && a != "" && b != ""
    ensures Split(a + "." + b) == [a, b] && IsDottedPath(a + "." + b)
  {
    SplitConcat(a, b);
    SplitDotFree(a);
    SplitDotFree(b);
  }

  lemma {:induction false} ObservedNameSplits(hidden: string)
    requires '.' !in hidden && hidden != ""
    ensures Split("observed." + hidden) == ["observed", hidden]
    ensures IsDottedPath("observed." + hidden)
  {
    assert "observed." + hidden == "observed" + "." + hidden;
    PairSplits("observed", hidden);
  }

  lemma {:induction false} ObservedDimensionFound(r: Record, hidden: string)
    requires '.' !in hidden && hidden != "" && hidden in r.observed
    ensures ResolveDimension(r, "observed." + hidden) == Found(r.observed[hidden])
  {
    ObservedNameSplits(hidden);
    var rest := [hidden];
    assert Split("observed." + hidden)[1..] == rest;
    assert rest[..1] == rest && Join(rest) == hidden && rest[1..] == [];
    assert LongestKey(r.observed.Keys, rest, 1) == 1;
    assert ResolveIn(Map(r.observed), rest) == ResolveIn(r.observed[hidden], rest[1..]);
  }

  lemma {:induction false} PrefixedUpdate(prefix: string, a: map<string, Value>, key: string, w: Value)
    ensures Prefixed(prefix, a[key := w]) == Prefixed(prefix, a)[prefix + key := w]
  {
    var pa, pb := Prefixed(prefix, a), Prefixed(prefix, a[key := w]);
    forall q ensures q in pb <==> q in pa[prefix + key := w] {
      if q in pa { assert q == prefix + q[|prefix|..]; }
      if q in pb { assert q == prefix + q[|prefix|..]; }
    }
    forall q | q in pb ensures pb[q] == pa[prefix + key := w][q] {
      assert q == prefix + q[|prefix|..];
      if q[|prefix|..] != key { assert q != prefix + key; }
    }
  }

  lemma {:induction false} ReplacedView(l: Record, key: string, w: Value)
    requires key in l.observed && key !in OBSERVED_EXCLUDED && key != "identity"
    ensures ObservedView(l.observed[key := w]) == ObservedView(l.observed)[key := w]
    ensures key in ObservedView(l.observed) && ObservedView(l.observed)[key] == l.observed[key]
  {}

  lemma {:induction false} MergeUpdate(a: map<string, Value>, b: map<string, Value>, k: string, w: Value)
    requires k in b
    ensures a + b[k := w] == (a + b)[k := w] && k in a + b && (a + b)[k] == b[k]
  {}

  lemma {:induction false} ReplacedRoots(l: Record, key: string, w: Value)
    requires key in l.observed && key !in OBSERVED_EXCLUDED && key != "identity"
    ensures Roots(Replaced(l, key, w)) == Roots(l)["observed." + key := w]
    ensures "observed." + key in Roots(l) && Roots(l)["observed." + key] == l.observed[key]
  {
    ReplacedView(l, key, w);
    PrefixedUpdate("observed.", ObservedView(l.observed), key, w);
    MergeUpdate(Requested(l.requested) + Prefixed("resolved.", l.resolved - RESOLVED_EXCLUDED),
                Prefixed("observed.", ObservedView(l.observed)), "observed." + key, w);
  }

  lemma {:induction false} ReplacedLeaves(l: Record, r: Record, p: string, w: Value, q: string, x: Value)
    requires p in Roots(l) && Roots(r) == Roots(l)[p := w] && !PathCovers(p, q) && p != ""
    ensures (q, x) in VisibleLeaves(l) <==> (q, x) in VisibleLeaves(r)
  {
    SameLeaf(l, (q, x));
    SameLeaf(r, (q, x));
    LeavesOfReplaced(Roots(l), p, w, q, x);
  }

  lemma {:induction false} LeavesOfReplaced(roots: map<string, Value>, p: string, w: Value, q: string, x: Value)
    requires p in roots && !PathCovers(p, q) && p != ""
    ensures HasLeaf(roots, (q, x)) <==> HasLeaf(roots[p := w], (q, x))
  {
    LeavesAreCovered(roots[p], p);
    LeavesAreCovered(w, p);
    var more := roots[p := w];
    if k :| k in roots && (q, x) in Leaves(roots[k], k) {
      assert k in more && (q, x) in Leaves(more[k], k);
    }
    if k :| k in more && (q, x) in Leaves(more[k], k) {
      assert k in roots && (q, x) in Leaves(roots[k], k);
    }
  }

  lemma {:induction false} ReplacedUnambiguous(roots: map<string, Value>, p: string, atom: int)
    requires Unambiguous(Map(roots)) && p in roots
    ensures Unambiguous(Map(roots[p := Leaf(atom)]))
  {
    var v := Map(roots[p := Leaf(atom)]);
    assert v.fields.Keys == Map(roots).fields.Keys;
    assert forall k :: k in v.fields ==> Unambiguous(v.fields[k]);
  }

  lemma {:induction false} DottedKeyIsPlain(key: string)
    requires '.' in key
    ensures key !in OBSERVED_EXCLUDED && key != "identity"
  {
    if key in Special(ObservedRoot) { SpecialKeysAreDotFree(ObservedRoot, key); }
  }

  lemma {:induction false} ReplacedSideDiffers(l: Record, r: Record, p: string, atom: int)
    requires UnambiguousRecord(l) && UnambiguousRecord(r) && p != ""
    requires p in Roots(l) && Roots(l)[p] != Leaf(atom) && Roots(r) == Roots(l)[p := Leaf(atom)]
    ensures SideAt(VisibleLeaves(l), p) != SideAt(VisibleLeaves(r), p)
  {
    RootLeafIsVisible(r, p);
    SideIsLeaf(r, (p, Leaf(atom)));
    OtherRootIsNotLeaf(l, p, atom);
  }

  lemma {:induction false} RootHasLeaf(roots: map<string, Value>, p: string)
    requires p in roots && roots[p].Leaf?
    ensures HasLeaf(roots, (p, roots[p]))
  {
    assert (p, roots[p]) in Leaves(roots[p], p);
  }

  lemma {:induction false} RootLeafIsVisible(r: Record, p: string)
    requires p in Roots(r) && Roots(r)[p].Leaf?
    ensures (p, Roots(r)[p]) in VisibleLeaves(r)
  {
    RootHasLeaf(Roots(r), p);
    SameLeaf(r, (p, Roots(r)[p]));
  }

  lemma {:induction false} WholeRootLeaf(l: Record, p: string, leaf: (string, Value))
    requires UnambiguousRecord(l) && p != "" && p in Roots(l) && leaf in VisibleLeaves(l) && leaf.0 == p
    ensures Roots(l)[p] == leaf.1
  {
    LeafBelowRoot(l, p, leaf);
    OwnPathIsWhole(Roots(l)[p], p, leaf);
  }

  lemma {:induction false} OtherRootIsNotLeaf(l: Record, p: string, atom: int)
    requires UnambiguousRecord(l) && p != "" && p in Roots(l) && Roots(l)[p] != Leaf(atom)
    ensures SideAt(VisibleLeaves(l), p) != Present(Leaf(atom))
  {
    if SideAt(VisibleLeaves(l), p) == Present(Leaf(atom)) { WholeRootLeaf(l, p, (p, Leaf(atom))); }
  }

  lemma {:induction false} LeafBelowRoot(r: Record, p: string, leaf: (string, Value))
    requires UnambiguousRecord(r) && p in Roots(r) && leaf in VisibleLeaves(r) && PathCovers(p, leaf.0)
    ensures leaf in Leaves(Roots(r)[p], p)
  {
    SameLeaf(r, leaf);
    var k :| k in Roots(r) && leaf in Leaves(Roots(r)[k], k);
    RootsNotEmpty(r);
    LeavesAreCovered(Roots(r)[k], k);
    SharedPathMeansSameKey(Map(Roots(r)).fields.Keys, "", k, p, leaf.0);
  }

  lemma {:induction false} ExtensionPath(prefix: string, hidden: string, extension: string)
    ensures hidden + "." <= hidden + "." + extension
    ensures PathCovers(prefix + hidden, prefix + (hidden + "." + extension))
  {
    assert prefix + (hidden + "." + extension) == prefix + hidden + "." + extension;
  }

  lemma {:induction false} PartnerRoots(l: Record, r: Record, key: string, atom: int, p: string)
    requires key in l.observed && key !in OBSERVED_EXCLUDED && key != "identity"
    requires r == Replaced(l, key, Leaf(atom)) && p == "observed." + key
    ensures p in Roots(l) && Roots(l)[p] == l.observed[key] && Roots(r) == Roots(l)[p := Leaf(atom)] && p != ""
  {
    ReplacedRoots(l, key, Leaf(atom));
  }

  lemma {:induction false} ReplacedAgreesOutside(l: Record, r: Record, d: string, p: string, w: Value)
    requires p in Roots(l) && Roots(r) == Roots(l)[p := w] && PathCovers(d, p) && p != ""
    ensures AgreeOutside(VisibleLeaves(l), VisibleLeaves(r), d)
  {
    var left, right := VisibleLeaves(l), VisibleLeaves(r);
    forall leaf: (string, Value) | !PathCovers(d, leaf.0) ensures leaf in left <==> leaf in right {
      if PathCovers(p, leaf.0) { CoversTransitive(d, p, leaf.0); }
      ReplacedLeaves(l, r, p, w, leaf.0, leaf.1);
    }
  }

  lemma {:induction false} HiddenControlFound(l: Record, key: string, hidden: string, atom: int)
    requires hidden in OBSERVED_EXCLUDED && hidden in l.observed && key in l.observed && '.' in key
    ensures IsDottedPath("observed." + hidden)
    ensures ResolveDimension(l, "observed." + hidden) == Found(l.observed[hidden])
    ensures ResolveDimension(Replaced(l, key, Leaf(atom)), "observed." + hidden) == Found(l.observed[hidden])
  {
    SpecialKeysAreDotFree(ObservedRoot, hidden);
    ObservedNameSplits(hidden);
    ObservedDimensionFound(l, hidden);
    ObservedDimensionFound(Replaced(l, key, Leaf(atom)), hidden);
  }

  /**
   * Whenever a completed record holds an excluded observed key and a dotted extension of it, some partner differs
   * below a control declaration and is still reported free of issues.
   */
  lemma {:induction false} HiddenKeyExtensionLoses(l: Record, hidden: string, extension: string, atom: int)
    returns (r: Record, d: string, p: string)
    requires l.status == Completed && UnambiguousRecord(l)
    requires hidden in OBSERVED_EXCLUDED && hidden in l.observed
    requires hidden + "." + extension in l.observed && l.observed[hidden + "." + extension] != Leaf(atom)
    ensures r == Replaced(l, hidden + "." + extension, Leaf(atom)) && d == "observed." + hidden
    ensures Escapes(l, r, d, p)
  {
    var key := hidden + "." + extension;
    d, p := "observed." + hidden, "observed." + key;
    r := Replaced(l, key, Leaf(atom));
    ExtensionPath("observed.", hidden, extension);
    assert key[|hidden|] == '.';
    DottedKeyIsPlain(key);
    HiddenControlFound(l, key, hidden, atom);
    PartnerRoots(l, r, key, atom, p);
    PartnerEscapes(l, r, d, p, l.observed[hidden], atom);
  }

  lemma {:induction false} PartnerEscapes(l: Record, r: Record, d: string, p: string, w: Value, atom: int)
    requires l.status == Completed && r.status == Completed && UnambiguousRecord(l) && IsDottedPath(d)
    requires ResolveDimension(l, d) == Found(w) && ResolveDimension(r, d) == Found(w)
    requires p in Roots(l) && Roots(l)[p] != Leaf(atom) && Roots(r) == Roots(l)[p := Leaf(atom)]
    requires PathCovers(d, p) && p != ""
    ensures Escapes(l, r, d, p)
  {
    ReplacedUnambiguous(Roots(l), p, atom);
    ReplacedAgreesOutside(l, r, d, p, Leaf(atom));
    ReplacedSideDiffers(l, r, p, atom);
    DifferOnlyBelow(l, r, d, p, w);
  }

  // ----- sample records -----

  const SPEC: RunSpec := RunSpec(Leaf(0), Leaf(0), Leaf(0), Leaf(0), Leaf(0), Leaf(0), Leaf(0))

  /** A completed record whose only evidence sits under one of the two roots. */
  function Sample(root: string, fields: map<string, Value>): Record {
    if root == "resolved" then Record(SPEC, fields, map[], Completed, map[])
    else Record(SPEC, map[], fields, Completed, map[])
  }

  /** What the projection keeps of it. */
  ghost function SampleView(root: string, fields: map<string, Value>): map<string, Value> {
    if root == "resolved" then fields - RESOLVED_EXCLUDED else ObservedView(fields)
  }

  ghost function SampleRoots(root: string, fields: map<string, Value>): map<string, Value> {
    Prefixed(root + ".", SampleView(root, fields))
  }

  lemma {:induction false} NoEvidence(none: map<string, Value>)
    requires none == map[]
    ensures Prefixed("resolved.", none - RESOLVED_EXCLUDED) == map[]
    ensures Prefixed("observed.", ObservedView(none)) == map[]
  {
    assert ObservedView(none) == none && none - RESOLVED_EXCLUDED == none;
  }

  lemma {:induction false} WithoutSecond(base: map<string, Value>, extra: map<string, Value>, none: map<string, Value>)
    requires none == map[]
    ensures base + extra + none == base + extra && base + none + extra == base + extra
  {
    assert base + none == base;
  }

  lemma {:induction false} RootsOfSample(root: string, fields: map<string, Value>)
    requires root in {"resolved", "observed"}
    ensures Roots(Sample(root, fields)) == Requested(SPEC) + SampleRoots(root, fields)
  {
    NoEvidence(map[]);
    WithoutSecond(Requested(SPEC), SampleRoots(root, fields), map[]);
    assert "resolved" + "." == "resolved." && "observed" + "." == "observed.";
  }

  lemma {:induction false} FirstDot(name: string, q: string, a: string)
    requires '.' !in name && '.' !in a && name + "." <= q && PathCovers(a, q) && a != q
    ensures a == name
  {
    assert q[|name|] == '.' && q[|a|] == '.';
    assert forall i :: 0 <= i < |name| ==> q[i] == name[i];
    assert forall i :: 0 <= i < |a| ==> q[i] == a[i];
  }

  /** Dot-free keys that are no root name, and keys behind one root name. */
  ghost predicate Apart(base: map<string, Value>, root: string, extra: map<string, Value>) {
    && '.' !in root && (forall k :: k in base ==> '.' !in k && k != root)
    && forall q :: q in extra ==> root + "." <= q
  }

  lemma {:induction false} ApartIsDisjoint(base: map<string, Value>, root: string, extra: map<string, Value>)
    requires Apart(base, root, extra)
    ensures base.Keys !! extra.Keys
  {
    forall q | q in extra ensures '.' in q { assert q[|root|] == '.'; }
  }

  lemma {:induction false} ApartUnambiguous(base: map<string, Value>, root: string, extra: map<string, Value>)
    requires Apart(base, root, extra) && PrefixFree(extra.Keys)
    requires (forall k :: k in base ==> Unambiguous(base[k])) && forall q :: q in extra ==> Unambiguous(extra[q])
    ensures Unambiguous(Map(base + extra))
  {
    var v := Map(base + extra);
    forall a, b | a in v.fields && b in v.fields && PathCovers(a, b) ensures a == b {
      if a != b {
        ProperExtensionHasDot(a, b);
        if a in base { FirstDot(root, b, a); }
      }
    }
    forall k | k in v.fields ensures Unambiguous(v.fields[k]) {}
  }

  lemma {:induction false} SpecIsLeaves(base: map<string, Value>)
    requires base == Requested(SPEC)
    ensures base.Keys == REQUESTED && forall k :: k in base ==> base[k].Leaf?
  {}

  lemma {:induction false} RequestedIsApart(k: string, root: string)
    requires k in REQUESTED && root in {"resolved", "observed"}
    ensures '.' !in k && k != root && '.' !in root
  {
    RootKeysAreDotFree(k);
    RootKeysAreDotFree(root);
    RequestedNames();
  }

  lemma {:induction false} PrefixedIsBehind(root: string, m: map<string, Value>)
    ensures forall q :: q in Prefixed(root + ".", m) ==> root + "." <= q
  {}

  lemma {:induction false} SpecIsPlain(root: string, fields: map<string, Value>, base: map<string, Value>)
    requires root in {"resolved", "observed"} && base == Requested(SPEC)
    ensures Apart(base, root, SampleRoots(root, fields))
    ensures forall k :: k in base ==> '.' !in k && base[k].Leaf?
  {
    SpecIsLeaves(base);
    PrefixedIsBehind(root, SampleView(root, fields));
    var k :| k in base;
    RequestedIsApart(k, root);
    forall k | k in base ensures '.' !in k && k != root { RequestedIsApart(k, root); }
  }

  lemma {:induction false} SampleUnambiguous(root: string, fields: map<string, Value>)
    requires root in {"resolved", "observed"} && Unambiguous(Map(SampleView(root, fields)))
    ensures UnambiguousRecord(Sample(root, fields))
  {
    RootsOfSample(root, fields);
    SpecIsPlain(root, fields, Requested(SPEC));
    PrefixedPrefixFree(root + ".", SampleView(root, fields));
    ApartUnambiguous(Requested(SPEC), root, SampleRoots(root, fields));
  }

  lemma {:induction false} PrefixedPrefixFree(prefix: string, m: map<string, Value>)
    requires Unambiguous(Map(m))
    ensures PrefixFree(Prefixed(prefix, m).Keys)
    ensures forall q :: q in Prefixed(prefix, m) ==> Unambiguous(Prefixed(prefix, m)[q])
  {
    var v := Map(m);
    forall a, b | a in Prefixed(prefix, m) && b in Prefixed(prefix, m) && PathCovers(a, b) ensures a == b {
      var x, y := a[|prefix|..], b[|prefix|..];
      assert a == prefix + x && b == prefix + y;
      assert PathCovers(x, y) by {
        if a != b { assert (a + ".")[|prefix|..] == x + "." && b[..|a| + 1][|prefix|..] == y[..|x| + 1]; }
      }
      assert x in v.fields && y in v.fields;
    }
    forall q | q in Prefixed(prefix, m) ensures Unambiguous(Prefixed(prefix, m)[q]) {
      assert q[|prefix|..] in v.fields;
    }
  }

  lemma {:induction false} DotFreeLeaves(base: map<string, Value>, leaf: (string, Value))
    requires forall k :: k in base ==> '.' !in k && base[k].Leaf?
    ensures HasLeaf(base, leaf) ==> '.' !in leaf.0
  {
    if q :| q in base && leaf in Leaves(base[q], q) { assert leaf == (q, base[q]); }
  }

  /** The leaves of a sample that have a dot in their path are those of its root. */
  lemma {:induction false} SampleLeaf(root: string, fields: map<string, Value>, leaf: (string, Value))
    requires root in {"resolved", "observed"}
    ensures leaf in VisibleLeaves(Sample(root, fields)) <==>
      HasLeaf(Requested(SPEC), leaf) || leaf in EntryLeaves(SampleView(root, fields), root)
    ensures HasLeaf(Requested(SPEC), leaf) ==> '.' !in leaf.0
  {
    SameLeaf(Sample(root, fields), leaf);
    RootsOfSample(root, fields);
    SpecIsPlain(root, fields, Requested(SPEC));
    DotFreeLeaves(Requested(SPEC), leaf);
    PrefixedLeaves(root, SampleView(root, fields), leaf);
    ApartIsDisjoint(Requested(SPEC), root, SampleRoots(root, fields));
    UnionHasLeaf(Requested(SPEC), SampleRoots(root, fields), leaf);
  }

  /** Two samples under one root escape a control that they resolve alike when only leaves below it differ. */
  lemma {:induction false} SamplesEscape(
      root: string, left: map<string, Value>, right: map<string, Value>, d: string, p: string, w: Value)
    requires root in {"resolved", "observed"} && IsDottedPath(d) && Split(d)[0] == root
    requires ResolveIn(Map(left), Split(d)[1..]) == Some(w) && ResolveIn(Map(right), Split(d)[1..]) == Some(w)
    requires Unambiguous(Map(SampleView(root, left))) && Unambiguous(Map(SampleView(root, right)))
    requires AgreeOutside(EntryLeaves(SampleView(root, left), root), EntryLeaves(SampleView(root, right), root), d)
    requires OnlyRight(EntryLeaves(SampleView(root, left), root), EntryLeaves(SampleView(root, right), root), p)
    requires PathCovers(d, p) && '.' in p
    ensures Deceives(Sample(root, left), Sample(root, right), d, w, p)
  {
    SampleUnambiguous(root, left);
    SampleUnambiguous(root, right);
    SamplesAgreeOutside(root, left, right, d);
    SamplesDiffer(root, left, right, p);
    SampleResolves(root, left, d, w);
    SampleResolves(root, right, d, w);
    DifferOnlyBelow(Sample(root, left), Sample(root, right), d, p, w);
  }

  ghost predicate OnlyRight(l: LeafSet, r: LeafSet, p: string) {
    (exists x :: (p, x) in r) && forall x :: (p, x) !in l
  }

  lemma {:induction false} SampleResolves(root: string, fields: map<string, Value>, d: string, w: Value)
    requires root in {"resolved", "observed"} && IsDottedPath(d) && Split(d)[0] == root
    requires ResolveIn(Map(fields), Split(d)[1..]) == Some(w)
    ensures ResolveDimension(Sample(root, fields), d) == Found(w)
  {
  }

  lemma {:induction false} SamplesAgreeOutside(
      root: string, left: map<string, Value>, right: map<string, Value>, d: string)
    requires root in {"resolved", "observed"}
    requires AgreeOutside(EntryLeaves(SampleView(root, left), root), EntryLeaves(SampleView(root, right), root), d)
    ensures AgreeOutside(VisibleLeaves(Sample(root, left)), VisibleLeaves(Sample(root, right)), d)
  {
    var l, r := VisibleLeaves(Sample(root, left)), VisibleLeaves(Sample(root, right));
    var el, er := EntryLeaves(SampleView(root, left), root), EntryLeaves(SampleView(root, right), root);
    forall leaf: (string, Value) | !PathCovers(d, leaf.0) ensures leaf in l <==> leaf in r {
      SampleLeaf(root, left, leaf);
      SampleLeaf(root, right, leaf);
      assert leaf in el <==> leaf in er;
    }
  }

  lemma {:induction false} SamplesDiffer(root: string, left: map<string, Value>, right: map<string, Value>, p: string)
    requires root in {"resolved", "observed"} && '.' in p
    requires OnlyRight(EntryLeaves(SampleView(root, left), root), EntryLeaves(SampleView(root, right), root), p)
    ensures SideAt(VisibleLeaves(Sample(root, left)), p) != SideAt(VisibleLeaves(Sample(root, right)), p)
  {
    var x :| (p, x) in EntryLeaves(SampleView(root, right), root);
    SampleLeaf(root, right, (p, x));
    forall y ensures (p, y) !in VisibleLeaves(Sample(root, left)) { SampleLeaf(root, left, (p, y)); }
  }

  // ----- a hidden key, and a key beside it that extends the whole path -----

  /** A single key in a single mapping at every step. */
  function Nest(segments: seq<string>, w: Value): Value {
    if segments == [] then w else Map(map[segments[0] := Nest(segments[1..], w)])
  }

  lemma {:induction false} NestResolves(segments: seq<string>, w: Value)
    requires DotFree(segments)
    ensures ResolveIn(Nest(segments, w), segments) == Some(w)
  {
    if segments != [] {
      NestResolves(segments[1..], w);
      WalkThroughFirst(Nest(segments, w).fields, segments);
    }
  }

  /** When no other key covers the path, the walk takes the first segment alone. */
  lemma {:induction false} WalkThroughFirst(fields: map<string, Value>, segments: seq<string>)
    requires segments != [] && segments[0] in fields
    requires forall k :: k in fields && k != segments[0] ==> !PathCovers(k, Join(segments))
    ensures ResolveIn(Map(fields), segments) == ResolveIn(fields[segments[0]], segments[1..])
  {
    var end := LongestKey(fields.Keys, segments, |segments|);
    assert Join(segments[..1]) == segments[0];
    SegmentsSplit(segments, end);
  }

  function Beside(segments: seq<string>): string {
    Join(segments) + ".z"
  }

  lemma {:induction false} BesideExtends(segments: seq<string>)
    ensures PathCovers(Join(segments), Beside(segments)) && !PathCovers(Beside(segments), Join(segments))
    ensures '.' in Beside(segments)
  {
    assert Beside(segments)[|Join(segments)|] == '.';
  }

  /** The hidden walk to `w`, with `more` around it. */
  function Shut(segments: seq<string>, w: Value, more: map<string, Value>): map<string, Value>
    requires segments != []
  {
    more[segments[0] := Nest(segments[1..], w)]
  }

  /** The same with an extension of the whole path beside it. */
  function Ajar(segments: seq<string>, w: Value, more: map<string, Value>): map<string, Value>
    requires segments != []
  {
    Shut(segments, w, more)[Beside(segments) := Leaf(0)]
  }

  lemma {:induction false} BothResolve(segments: seq<string>, w: Value, more: map<string, Value>)
    requires segments != [] && DotFree(segments)
    requires forall k :: k in more ==> !PathCovers(k, Join(segments))
    ensures ResolveIn(Map(Shut(segments, w, more)), segments) == Some(w)
    ensures ResolveIn(Map(Ajar(segments, w, more)), segments) == Some(w)
  {
    BesideExtends(segments);
    NestResolves(segments[1..], w);
    var shut, ajar := Shut(segments, w, more), Ajar(segments, w, more);
    WalkThroughFirst(shut, segments);
    WalkThroughFirst(ajar, segments);
  }

  lemma {:induction false} ChildInjective(path: string, a: string, b: string)
    requires Child(path, a) == Child(path, b)
    ensures a == b
  {
    if path != "" {
      assert a == Child(path, a)[|path| + 1..] && b == Child(path, b)[|path| + 1..];
    }
  }

  lemma {:induction false} PathOfBeside(path: string, segments: seq<string>, d: string)
    requires path != "" && d == Child(path, Join(segments))
    ensures Child(path, Beside(segments)) == d + ".z" && PathCovers(d, d + ".z") && '.' in d + ".z"
  {
    assert path + "." + (Join(segments) + ".z") == path + "." + Join(segments) + ".z";
    assert (d + ".z")[|d|] == '.';
  }

  /** Exactly one leaf more on the right, below `d`. */
  ghost predicate OneMore(l: LeafSet, r: LeafSet, p: string) {
    r == l + {(p, Leaf(0))} && forall x :: (p, x) !in l
  }

  lemma {:induction false} OneMoreDiffers(l: LeafSet, r: LeafSet, d: string, p: string)
    requires OneMore(l, r, p) && PathCovers(d, p)
    ensures AgreeOutside(l, r, d) && OnlyRight(l, r, p)
  {
    assert (p, Leaf(0)) in r;
  }

  lemma {:induction false} AddedLeaf(m: map<string, Value>, e: string, path: string)
    requires path != "" && e !in m
    ensures EntryLeaves(m[e := Leaf(0)], path) == EntryLeaves(m, path) + {(Child(path, e), Leaf(0))}
  {
    var more, own := m[e := Leaf(0)], (Child(path, e), Leaf(0));
    assert own in Leaves(more[e], Child(path, e));
    forall leaf ensures leaf in EntryLeaves(more, path) <==> leaf in EntryLeaves(m, path) || leaf == own {
      if k :| k in m && leaf in Leaves(m[k], Child(path, k)) { assert k in more && more[k] == m[k]; }
    }
  }

  lemma {:induction false} OnlyEntry(k: string, x: Value, path: string)
    ensures EntryLeaves(map[k := x], path) == Leaves(x, Child(path, k))
  {
    assert map[k := x][k] == x;
  }

  /** An extension adds its own leaf to a view that has no other key on its path. */
  lemma {:induction false} BesideIsOneMore(m: map<string, Value>, segments: seq<string>, path: string, d: string)
    requires path != "" && d == Child(path, Join(segments))
    requires forall k :: k in m ==> m[k].Leaf? && k != Beside(segments)
    ensures OneMore(EntryLeaves(m, path), EntryLeaves(m[Beside(segments) := Leaf(0)], path), d + ".z")
  {
    var e := Beside(segments);
    PathOfBeside(path, segments, d);
    AddedLeaf(m, e, path);
    forall x ensures (d + ".z", x) !in EntryLeaves(m, path) {
      if k :| k in m && (d + ".z", x) in Leaves(m[k], Child(path, k)) {
        assert Child(path, k) == Child(path, e);
        ChildInjective(path, k, e);
      }
    }
  }

  // ----- keys hidden at a root -----

  lemma {:induction false} ViewWithDotted(root: string, fields: map<string, Value>, e: string, x: Value)
    requires '.' in e
    ensures SampleView(root, fields[e := x]) == SampleView(root, fields)[e := x]
  {
    assert e !in RESOLVED_EXCLUDED;
    DottedKeyIsPlain(e);
    assert e != "invocations";
    assert InvocationView(fields[e := x]) == InvocationView(fields);
  }

  lemma {:induction false} RootFamily(root: string, d: string, segments: seq<string>, w: Value)
    requires root in {"resolved", "observed"} && IsDottedPath(d)
    requires segments != [] && Split(d) == [root] + segments
    requires SampleView(root, Shut(segments, w, map[])) == map[]
    ensures Deceives(Sample(root, Shut(segments, w, map[])), Sample(root, Ajar(segments, w, map[])), d, w, d + ".z")
  {
    var none: map<string, Value> := map[];
    var left, right := Shut(segments, w, none), Ajar(segments, w, none);
    DimensionPath(root, segments, d);
    BesideExtends(segments);
    BothResolve(segments, w, none);
    ViewWithDotted(root, left, Beside(segments), Leaf(0));
    BesideIsOneMore(none, segments, root, d);
    PathOfBeside(root, segments, d);
    OneMoreDiffers(EntryLeaves(none, root), EntryLeaves(none[Beside(segments) := Leaf(0)], root), d, d + ".z");
    assert Split(d)[1..] == segments;
    SamplesEscape(root, left, right, d, d + ".z", w);
  }

  lemma {:induction false} DimensionPath(root: string, segments: seq<string>, d: string)
    requires segments != [] && Split(d) == [root] + segments && root != ""
    ensures d == Child(root, Join(segments)) && Split(d)[1..] == segments && DotFree(segments)
  {
    JoinSplit(d);
    JoinConcat([root], segments);
    assert forall i :: 0 <= i < |segments| ==> Split(d)[i + 1] == segments[i];
  }

  lemma {:induction false} DottedKeyResolves(segments: seq<string>, w: Value)
    requires segments != [] && DotFree(segments)
    ensures ResolveIn(Map(map[Join(segments) := w]), segments) == Some(w)
  {
    var v := Map(map[Join(segments) := w]);
    SplitJoin(segments);
    WalkTakesKey(v, Join(segments), []);
    assert segments + [] == segments;
  }

  lemma {:induction false} DottedKeyShows(root: string, segments: seq<string>, w: Value, only: map<string, Value>)
    requires |segments| >= 2 && only == map[Join(segments) := w]
    ensures SampleView(root, only) == only && EntryLeaves(only, root) == Leaves(w, Child(root, Join(segments)))
  {
    var none: map<string, Value> := map[];
    assert Join(segments)[|segments[0]|] == '.';
    assert SampleView(root, none) == none && only == none[Join(segments) := w];
    ViewWithDotted(root, none, Join(segments), w);
    OnlyEntry(Join(segments), w, root);
  }

  lemma {:induction false} SomeLeaf(w: Value, d: string, none: LeafSet) returns (p: string)
    requires d != "" && none == {}
    ensures OnlyRight(none, Leaves(w, d), p) && PathCovers(d, p) && AgreeOutside(none, Leaves(w, d), d)
  {
    LeavesAreCovered(w, d);
    var leaf :| leaf in Leaves(w, d);
    p := leaf.0;
    assert (p, leaf.1) in Leaves(w, d);
  }

  lemma {:induction false} SingleUnambiguous(k: string, w: Value, only: map<string, Value>)
    requires Unambiguous(w) && only == map[k := w]
    ensures Unambiguous(Map(only))
  {}

  /** The same loss without the excluded key on the other side: the path is nested there, and one dotted key here. */
  lemma {:induction false} WithoutBaseFamily(
      root: string, d: string, segments: seq<string>, w: Value)
    returns (p: string)
    requires root in {"resolved", "observed"} && IsDottedPath(d) && Unambiguous(w)
    requires |segments| >= 2 && Split(d) == [root] + segments
    requires SampleView(root, Shut(segments, w, map[])) == map[]
    ensures Deceives(Sample(root, Shut(segments, w, map[])), Sample(root, map[Join(segments) := w]), d, w, p)
  {
    var none: map<string, Value> := map[];
    DimensionPath(root, segments, d);
    p := SomeLeaf(w, d, EntryLeaves(none, root));
    BothResolve(segments, w, none);
    DottedKeyResolves(segments, w);
    DottedKeyShows(root, segments, w, map[Join(segments) := w]);
    SingleUnambiguous(Join(segments), w, map[Join(segments) := w]);
    DotBelow(root, Join(segments), p);
    SamplesEscape(root, Shut(segments, w, none), map[Join(segments) := w], d, p, w);
  }

  lemma {:induction false} DotBelow(root: string, rest: string, p: string)
    requires root != "" && PathCovers(Child(root, rest), p)
    ensures '.' in p
  {
    assert p[|root|] == '.';
  }

  /** An excluded root key hides what it holds; `invocations` does so unless it is a sequence with identity fields. */
  lemma {:induction false} ExcludedShowsNothing(root: string, segments: seq<string>, w: Value)
    requires segments != []
    requires root == "resolved" ==> segments[0] in RESOLVED_EXCLUDED
    requires root != "resolved" ==> segments[0] in OBSERVED_EXCLUDED
    requires segments[0] == "invocations" ==> |segments| > 1 || ShowsNoRow(w)
    ensures SampleView(root, Shut(segments, w, map[])) == map[]
  {
    var fields := Shut(segments, w, map[]);
    if root == "resolved" {
      assert fields - RESOLVED_EXCLUDED == map[];
    } else {
      if "invocations" in fields && fields["invocations"].Seq? {
        var rows := fields["invocations"].items;
        RowViewsContents(rows, |rows|, RowViews(rows, |rows|));
      }
      assert InvocationView(fields).None?;
      assert ObservedView(fields) == map[];
    }
  }

  // ----- keys hidden below `observed.identity` -----

  /** A visible leaf on both sides, so that no mapping becomes an empty one. */
  const MORE: map<string, Value> := map["a" := Leaf(0)]

  lemma {:induction false} MoreIsApart(segments: seq<string>)
    requires segments != [] && segments[0] in {"reasons", "source"}
    ensures forall k :: k in MORE ==> !PathCovers(k, Join(segments)) && MORE[k].Leaf? && k != Beside(segments)
    ensures Unambiguous(Map(MORE)) && Unambiguous(Map(MORE[Beside(segments) := Leaf(0)]))
  {
    assert Join(segments)[0] == segments[0][0] != 'a';
    assert Beside(segments)[0] == Join(segments)[0];
    BesideExtends(segments);
    var v := Map(MORE[Beside(segments) := Leaf(0)]);
    forall a, b | a in v.fields && b in v.fields && PathCovers(a, b) ensures a == b {
      if a != b { ProperExtensionHasDot(a, b); }
    }
    forall k | k in v.fields ensures Unambiguous(v.fields[k]) { assert v.fields[k].Leaf?; }
  }

  lemma {:induction false} MoreByOne(segments: seq<string>, path: string, d: string)
    requires segments != [] && segments[0] in {"reasons", "source"} && path != "" && d == Child(path, Join(segments))
    ensures OneMore(Leaves(Map(MORE), path), Leaves(Map(MORE[Beside(segments) := Leaf(0)]), path), d + ".z")
  {
    MoreIsApart(segments);
    BesideIsOneMore(MORE, segments, path, d);
    assert "a" in MORE && Beside(segments) in MORE[Beside(segments) := Leaf(0)];
    EntriesAreLeaves(MORE, path);
    EntriesAreLeaves(MORE[Beside(segments) := Leaf(0)], path);
  }

  lemma {:induction false} IdentitySample(v: Value, fields: map<string, Value>)
    requires fields == map["identity" := v]
    ensures SampleView("observed", fields) == map["identity" := IdentityView(v)]
    ensures EntryLeaves(SampleView("observed", fields), "observed") == Leaves(IdentityView(v), "observed.identity")
    ensures Unambiguous(IdentityView(v)) ==> Unambiguous(Map(SampleView("observed", fields)))
  {
    assert InvocationView(fields).None?;
    assert SampleView("observed", fields) == map["identity" := IdentityView(v)];
    OnlyEntry("identity", IdentityView(v), "observed");
    assert Child("observed", "identity") == "observed.identity";
    if Unambiguous(IdentityView(v)) { SingleUnambiguous("identity", IdentityView(v), SampleView("observed", fields)); }
  }

  lemma {:induction false} IdentityResolves(v: Value, rest: seq<string>, fields: map<string, Value>, w: Value)
    requires fields == map["identity" := v] && DotFree(rest) && ResolveIn(v, rest) == Some(w)
    ensures ResolveIn(Map(fields), ["identity"] + rest) == Some(w)
  {
    var segments := ["identity"] + rest;
    assert segments[1..] == rest && segments[0] == "identity" && fields[segments[0]] == v;
    WalkThroughFirst(fields, segments);
  }

  /** Two identities that resolve alike and whose projections differ by leaves below `d` only. */
  lemma {:induction false} IdentityFamily(
      d: string, rest: seq<string>, left: Value, right: Value, p: string, w: Value)
    requires IsDottedPath(d) && rest != [] && Split(d) == ["observed"] + (["identity"] + rest)
    requires ResolveIn(left, rest) == Some(w) && ResolveIn(right, rest) == Some(w)
    requires Unambiguous(IdentityView(left)) && Unambiguous(IdentityView(right))
    requires AgreeOutside(Leaves(IdentityView(left), "observed.identity"),
                          Leaves(IdentityView(right), "observed.identity"), d)
    requires OnlyRight(Leaves(IdentityView(left), "observed.identity"),
                       Leaves(IdentityView(right), "observed.identity"), p)
    requires PathCovers(d, p)
    ensures Deceives(Sample("observed", map["identity" := left]), Sample("observed", map["identity" := right]), d, w, p)
  {
    var segments := ["identity"] + rest;
    DimensionPath("observed", segments, d);
    RestIsDotFree(segments, rest);
    IdentitySample(left, map["identity" := left]);
    IdentitySample(right, map["identity" := right]);
    IdentityResolves(left, rest, map["identity" := left], w);
    IdentityResolves(right, rest, map["identity" := right], w);
    DotBelow("observed", Join(segments), p);
    SamplesEscape("observed", map["identity" := left], map["identity" := right], d, p, w);
  }

  lemma {:induction false} ViewOfPlain(fields: map<string, Value>, kept: map<string, Value>)
    requires fields - {"reasons"} == kept && forall k :: k in kept ==> kept[k].Leaf?
    ensures IdentityView(Map(fields)) == Map(kept)
  {
    assert IdentityView(Map(fields)).fields == kept;
  }

  lemma {:induction false} ViewWithoutReasons(segments: seq<string>, w: Value)
    requires segments != [] && segments[0] == "reasons"
    ensures IdentityView(Map(Shut(segments, w, MORE))) == Map(MORE)
    ensures IdentityView(Map(Ajar(segments, w, MORE))) == Map(MORE[Beside(segments) := Leaf(0)])
  {
    BesideExtends(segments);
    assert '.' !in segments[0];
    ViewOfPlain(Shut(segments, w, MORE), MORE);
    ViewOfPlain(Ajar(segments, w, MORE), MORE[Beside(segments) := Leaf(0)]);
  }

  /** `observed.identity.reasons`, and everything below it. */
  lemma {:induction false} ReasonsFamily(d: string, rest: seq<string>, w: Value)
    requires IsDottedPath(d) && rest != [] && rest[0] == "reasons" && Split(d) == ["observed"] + (["identity"] + rest)
    ensures Deceives(Sample("observed", map["identity" := Map(Shut(rest, w, MORE))]),
                    Sample("observed", map["identity" := Map(Ajar(rest, w, MORE))]), d, w, d + ".z")
  {
    IdentityPath(rest, d);
    ViewWithoutReasons(rest, w);
    MoreIsApart(rest);
    BothResolve(rest, w, MORE);
    MoreByOne(rest, "observed.identity", d);
    PathOfBeside("observed.identity", rest, d);
    OneMoreDiffers(Leaves(Map(MORE), "observed.identity"),
                   Leaves(Map(MORE[Beside(rest) := Leaf(0)]), "observed.identity"), d, d + ".z");
    IdentityFamily(d, rest, Map(Shut(rest, w, MORE)), Map(Ajar(rest, w, MORE)), d + ".z", w);
  }

  lemma {:induction false} IdentityPath(rest: seq<string>, d: string)
    requires rest != [] && Split(d) == ["observed"] + (["identity"] + rest)
    ensures d == Child("observed.identity", Join(rest)) && DotFree(rest)
  {
    var segments := ["identity"] + rest;
    DimensionPath("observed", segments, d);
    RestIsDotFree(segments, rest);
    JoinConcat(["identity"], rest);
    ChildAssociative("observed", "identity", Join(rest));
    assert Child("observed", "identity") == "observed.identity";
  }

  lemma {:induction false} OnePartView(part: string, v: Value)
    requires part in COMPONENTS
    ensures IdentityView(Map(map[part := v])) == Map(map[part := WithoutSource(v)])
  {
    assert part != "reasons";
    assert IdentityView(Map(map[part := v])).fields == map[part := WithoutSource(v)];
  }

  lemma {:induction false} ViewWithoutSource(part: string, below: seq<string>, w: Value)
    requires part in COMPONENTS && below != [] && below[0] == "source"
    ensures IdentityView(Map(map[part := Map(Shut(below, w, MORE))])) == Map(map[part := Map(MORE)])
    ensures IdentityView(Map(map[part := Map(Ajar(below, w, MORE))]))
         == Map(map[part := Map(MORE[Beside(below) := Leaf(0)])])
  {
    BesideExtends(below);
    OnePartView(part, Map(Shut(below, w, MORE)));
    OnePartView(part, Map(Ajar(below, w, MORE)));
    assert Beside(below) != "source";
    assert Shut(below, w, MORE) - {"source"} == MORE;
    assert Ajar(below, w, MORE) - {"source"} == MORE[Beside(below) := Leaf(0)];
  }

  lemma {:induction false} PartLeaves(part: string, v: Value, path: string)
    ensures Leaves(Map(map[part := v]), path) == Leaves(v, Child(path, part))
  {
    assert part in map[part := v];
    EntriesAreLeaves(map[part := v], path);
    OnlyEntry(part, v, path);
  }

  lemma {:induction false} PartResolves(part: string, v: Value, below: seq<string>, w: Value)
    requires ResolveIn(v, below) == Some(w) && '.' !in part && DotFree(below)
    ensures ResolveIn(Map(map[part := v]), [part] + below) == Some(w)
  {
    var fields, segments := map[part := v], [part] + below;
    assert segments[1..] == below && segments[0] == part && fields[segments[0]] == v;
    WalkThroughFirst(fields, segments);
  }

  /** `source` inside a component of the identity, and everything below it. */
  lemma {:induction false} SourceFamily(d: string, part: string, below: seq<string>, w: Value)
    requires part in COMPONENTS && below != [] && below[0] == "source"
    requires IsDottedPath(d) && Split(d) == ["observed"] + (["identity"] + ([part] + below))
    ensures Deceives(Sample("observed", map["identity" := Map(map[part := Map(Shut(below, w, MORE))])]),
                    Sample("observed", map["identity" := Map(map[part := Map(Ajar(below, w, MORE))])]), d, w, d + ".z")
  {
    var left, right := Map(Shut(below, w, MORE)), Map(Ajar(below, w, MORE));
    PartPath(part, below, d);
    ViewWithoutSource(part, below, w);
    MoreIsApart(below);
    BothResolve(below, w, MORE);
    PartResolves(part, left, below, w);
    PartResolves(part, right, below, w);
    SourceLeaves(part, below, d);
    SingleUnambiguous(part, Map(MORE), map[part := Map(MORE)]);
    SingleUnambiguous(part, Map(MORE[Beside(below) := Leaf(0)]), map[part := Map(MORE[Beside(below) := Leaf(0)])]);
    IdentityFamily(d, [part] + below, Map(map[part := left]), Map(map[part := right]), d + ".z", w);
  }

  lemma {:induction false} SourceLeaves(part: string, below: seq<string>, d: string)
    requires below != [] && below[0] == "source" && d == Child(Child("observed.identity", part), Join(below))
    ensures
      var left := Leaves(Map(map[part := Map(MORE)]), "observed.identity");
      var right := Leaves(Map(map[part := Map(MORE[Beside(below) := Leaf(0)])]), "observed.identity");
      AgreeOutside(left, right, d) && OnlyRight(left, right, d + ".z") && PathCovers(d, d + ".z")
  {
    var path := Child("observed.identity", part);
    PartLeaves(part, Map(MORE), "observed.identity");
    PartLeaves(part, Map(MORE[Beside(below) := Leaf(0)]), "observed.identity");
    MoreByOne(below, path, d);
    PathOfBeside(path, below, d);
    OneMoreDiffers(Leaves(Map(MORE), path), Leaves(Map(MORE[Beside(below) := Leaf(0)]), path), d, d + ".z");
  }

  lemma {:induction false} PartPath(part: string, below: seq<string>, d: string)
    requires below != [] && Split(d) == ["observed"] + (["identity"] + ([part] + below))
    ensures d == Child(Child("observed.identity", part), Join(below)) && DotFree(below) && '.' !in part
  {
    var rest := [part] + below;
    IdentityPath(rest, d);
    assert rest[0] == part && rest[1..] == below;
    RestIsDotFree(rest, below);
    JoinConcat([part], below);
    ChildAssociative("observed.identity", part, Join(below));
  }

  // ----- the same without the hidden key itself: one side nests the path, the other spells it as one dotted key -----

  function Spelled(segments: seq<string>, w: Value): map<string, Value> {
    MORE[Join(segments) := w]
  }

  lemma {:induction false} SpelledIsApart(segments: seq<string>, w: Value)
    requires segments != [] && segments[0] in {"reasons", "source"}
    ensures PrefixFree(Spelled(segments, w).Keys) && !PathCovers(Join(segments), "a") && Join(segments) !in MORE
  {
    assert Join(segments)[0] == segments[0][0] != 'a';
  }

  lemma {:induction false} SpelledUnambiguous(segments: seq<string>, w: Value, v: Value)
    requires segments != [] && segments[0] in {"reasons", "source"} && Unambiguous(w)
    requires v == Map(Spelled(segments, w))
    ensures Unambiguous(v)
  {
    SpelledIsApart(segments, w);
    forall k | k in v.fields ensures Unambiguous(v.fields[k]) {
      if k != Join(segments) { assert k in MORE; }
    }
  }

  lemma {:induction false} SpelledResolves(segments: seq<string>, w: Value)
    requires segments != [] && DotFree(segments) && segments[0] in {"reasons", "source"}
    ensures ResolveIn(Map(Spelled(segments, w)), segments) == Some(w)
  {
    var v := Map(Spelled(segments, w));
    SpelledIsApart(segments, w);
    SplitJoin(segments);
    WalkTakesKey(v, Join(segments), []);
    assert segments + [] == segments;
  }

  lemma {:induction false} SpelledShows(segments: seq<string>, w: Value, path: string, d: string) returns (p: string)
    requires segments != [] && segments[0] in {"reasons", "source"} && path != "" && d == Child(path, Join(segments))
    ensures PathCovers(d, p)
    ensures AgreeOutside(Leaves(Map(MORE), path), Leaves(Map(Spelled(segments, w)), path), d)
    ensures OnlyRight(Leaves(Map(MORE), path), Leaves(Map(Spelled(segments, w)), path), p)
  {
    var k := Join(segments);
    p := SomeLeaf(w, d, {});
    SpelledIsApart(segments, w);
    assert "a" in MORE && k in Spelled(segments, w);
    EntriesAreLeaves(MORE, path);
    EntriesAreLeaves(Spelled(segments, w), path);
    forall leaf: (string, Value) ensures leaf in EntryLeaves(Spelled(segments, w), path) <==>
      leaf in EntryLeaves(MORE, path) || leaf in Leaves(w, d)
    {
      SpelledLeaf(k, w, path, leaf);
    }
    forall leaf | leaf in Leaves(w, d) ensures PathCovers(d, leaf.0) { LeavesAreCovered(w, d); }
    ChildCovers(path, k, "a");
    OnlyEntry("a", Leaf(0), path);
  }

  lemma {:induction false} SpelledLeaf(k: string, w: Value, path: string, leaf: (string, Value))
    requires k !in MORE
    ensures leaf in EntryLeaves(MORE[k := w], path) <==>
      leaf in EntryLeaves(MORE, path) || leaf in Leaves(w, Child(path, k))
  {
    var more := MORE[k := w];
    if j :| j in MORE && leaf in Leaves(MORE[j], Child(path, j)) { assert j in more && more[j] == MORE[j]; }
    assert k in more && more[k] == w;
  }

  /** A dotted key is nothing special to the identity or to a component. */
  lemma {:induction false} SpelledIsKept(segments: seq<string>, w: Value, v: Value)
    requires |segments| >= 2 && v == Map(Spelled(segments, w))
    ensures IdentityView(v) == v && WithoutSource(v) == v
  {
    var k := Join(segments);
    assert k[|segments[0]|] == '.';
    if k in Special(Identity) { SpecialKeysAreDotFree(Identity, k); }
    if k in Special(Component) { SpecialKeysAreDotFree(Component, k); }
    assert "a" !in Special(Identity) && "a" !in Special(Component);
    assert IdentityView(v).fields == v.fields && WithoutSource(v).fields == v.fields;
  }

  lemma {:induction false} ReasonsWithoutBase(d: string, rest: seq<string>, w: Value) returns (p: string)
    requires IsDottedPath(d) && |rest| >= 2 && rest[0] == "reasons" && Split(d) == ["observed"] + (["identity"] + rest)
    requires Unambiguous(w)
    ensures Deceives(Sample("observed", map["identity" := Map(Shut(rest, w, MORE))]),
                     Sample("observed", map["identity" := Map(Spelled(rest, w))]), d, w, p)
  {
    IdentityPath(rest, d);
    ViewWithoutReasons(rest, w);
    SpelledIsKept(rest, w, Map(Spelled(rest, w)));
    MoreIsApart(rest);
    SpelledUnambiguous(rest, w, Map(Spelled(rest, w)));
    BothResolve(rest, w, MORE);
    SpelledResolves(rest, w);
    p := SpelledShows(rest, w, "observed.identity", d);
    IdentityFamily(d, rest, Map(Shut(rest, w, MORE)), Map(Spelled(rest, w)), p, w);
  }

  lemma {:induction false} SourceWithoutBase(d: string, part: string, below: seq<string>, w: Value) returns (p: string)
    requires part in COMPONENTS && |below| >= 2 && below[0] == "source" && Unambiguous(w)
    requires IsDottedPath(d) && Split(d) == ["observed"] + (["identity"] + ([part] + below))
    ensures Deceives(Sample("observed", map["identity" := Map(map[part := Map(Shut(below, w, MORE))])]),
                     Sample("observed", map["identity" := Map(map[part := Map(Spelled(below, w))])]), d, w, p)
  {
    var left, right := Map(Shut(below, w, MORE)), Map(Spelled(below, w));
    PartPath(part, below, d);
    ViewWithoutSource(part, below, w);
    SpelledIsKept(below, w, right);
    OnePartView(part, right);
    MoreIsApart(below);
    SpelledUnambiguous(below, w, right);
    BothResolve(below, w, MORE);
    SpelledResolves(below, w);
    PartResolves(part, left, below, w);
    PartResolves(part, right, below, w);
    PartLeaves(part, Map(MORE), "observed.identity");
    PartLeaves(part, right, "observed.identity");
    p := SpelledShows(below, w, Child("observed.identity", part), d);
    SingleUnambiguous(part, Map(MORE), map[part := Map(MORE)]);
    SingleUnambiguous(part, right, map[part := right]);
    IdentityFamily(d, [part] + below, Map(map[part := left]), Map(map[part := right]), p, w);
  }

  // ----- a component with a source -----

  /** The leaf that dropping `source` loses. */
  lemma {:induction false} SourceIsLost(w: Value, d: string) returns (p: string)
    requires d != "" && w.Map? && "source" in w.fields && Unambiguous(w)
    ensures OnlyRight(Leaves(WithoutSource(w), d), Leaves(w, d), p) && PathCovers(d, p)
  {
    var kept := WithoutSource(w);
    LeavesAreCovered(w.fields["source"], Child(d, "source"));
    var leaf :| leaf in Leaves(w.fields["source"], Child(d, "source"));
    p := leaf.0;
    CoversTransitive(d, Child(d, "source"), p);
    assert (p, leaf.1) in Leaves(w, d);
    forall x ensures (p, x) !in Leaves(kept, d) {
      if (p, x) in Leaves(kept, d) { NotBelowSource(w, kept, d, p, x); }
    }
  }

  lemma {:induction false} NotBelowSource(w: Value, kept: Value, d: string, p: string, x: Value)
    requires d != "" && w.Map? && "source" in w.fields && Unambiguous(w) && kept == WithoutSource(w)
    requires (p, x) in Leaves(kept, d)
    ensures !PathCovers(Child(d, "source"), p)
  {
    if kept.fields == map[] {
      PathItselfIsAbove(d, "source");
    } else if PathCovers(Child(d, "source"), p) {
      var k :| k in kept.fields && (p, x) in Leaves(kept.fields[k], Child(d, k));
      LeavesAreCovered(kept.fields[k], Child(d, k));
      SharedPathMeansSameKey(w.fields.Keys, d, k, "source", p);
    }
  }

  /** `observed.identity.<component>` whose value has a source: nested it is dropped, under a dotted key it is shown. */
  lemma {:induction false} ComponentFamily(d: string, part: string, w: Value) returns (p: string)
    requires part in COMPONENTS && w.Map? && "source" in w.fields && Unambiguous(w)
    requires IsDottedPath(d) && Split(d) == ["observed"] + ["identity", part]
    ensures Deceives(Sample("observed", map["identity" := Map(map[part := w])]),
                    Sample("observed", map[Join(["identity", part]) := w]), d, w, p)
  {
    var segments := ["identity", part];
    var left, right := map["identity" := Map(map[part := w])], map[Join(segments) := w];
    DimensionPath("observed", segments, d);
    p := SourceIsLost(w, d);
    ComponentView(part, w, d, left);
    assert segments[1..] == [part] && Nest([part], w) == Map(map[part := w]) by { assert [part][1..] == []; }
    NestResolves(segments, w);
    assert Nest(segments, w) == Map(left);
    DottedKeyResolves(segments, w);
    DottedKeyShows("observed", segments, w, right);
    SingleUnambiguous(Join(segments), w, right);
    OnlyBelow(WithoutSource(w), w, d);
    DotBelow("observed", Join(segments), p);
    SamplesEscape("observed", left, right, d, p, w);
  }

  lemma {:induction false} OnlyBelow(v: Value, w: Value, d: string)
    requires d != ""
    ensures AgreeOutside(Leaves(v, d), Leaves(w, d), d)
  {
    LeavesAreCovered(v, d);
    LeavesAreCovered(w, d);
  }

  lemma {:induction false} ComponentView(part: string, w: Value, d: string, left: map<string, Value>)
    requires part in COMPONENTS && w.Map? && Unambiguous(w) && left == map["identity" := Map(map[part := w])]
    requires d == Child("observed", Join(["identity", part]))
    ensures EntryLeaves(SampleView("observed", left), "observed") == Leaves(WithoutSource(w), d)
    ensures Unambiguous(Map(SampleView("observed", left)))
  {
    var view := map[part := WithoutSource(w)];
    OnePartView(part, w);
    IdentitySample(Map(map[part := w]), left);
    PartLeaves(part, WithoutSource(w), "observed.identity");
    ComponentPath(part, d);
    KeptUnambiguous(w);
    SingleUnambiguous(part, WithoutSource(w), view);
  }

  lemma {:induction false} KeptUnambiguous(w: Value)
    requires w.Map? && Unambiguous(w)
    ensures Unambiguous(WithoutSource(w))
  {
    var kept := WithoutSource(w);
    forall a, b | a in kept.fields && b in kept.fields && PathCovers(a, b) ensures a == b {
      assert a in w.fields && b in w.fields;
    }
    forall k | k in kept.fields ensures Unambiguous(kept.fields[k]) { assert k in w.fields; }
  }

  lemma {:induction false} ComponentPath(part: string, d: string)
    requires d == Child("observed", Join(["identity", part]))
    ensures d == Child(Child("observed", "identity"), part)
    ensures Child("observed", "identity") == "observed.identity"
  {
    assert Join(["identity", part]) == "identity" + "." + part by { assert ["identity", part][1..] == [part]; }
    ChildAssociative("observed", "identity", part);
  }

  // ----- the exposed declarations are exactly the ones that cannot be trusted -----

  lemma {:induction false} HiddenInComponent(segments: seq<string>)
    requires NamedPosition(Component, segments) == Hidden
    ensures segments != [] && segments[0] == "source"
  {
    if segments != [] { PlainStaysPlain(segments[1..]); }
  }

  lemma {:induction false} HiddenInIdentity(segments: seq<string>)
    requires NamedPosition(Identity, segments) == Hidden
    ensures segments != []
    ensures segments[0] == "reasons" || (segments[0] in COMPONENTS && |segments| >= 2 && segments[1] == "source")
  {
    if segments != [] && segments[0] in COMPONENTS { HiddenInComponent(segments[1..]); }
  }

  lemma {:induction false} HiddenInObserved(segments: seq<string>)
    requires NamedPosition(ObservedRoot, segments) == Hidden && (segments != [] ==> segments[0] != "invocations")
    ensures segments != []
    ensures segments[0] in OBSERVED_EXCLUDED
      || (segments[0] == "identity" && NamedPosition(Identity, segments[1..]) == Hidden)
  {
    if segments != [] { PlainStaysPlain(segments[1..]); }
  }

  /** An excluded place is an excluded root key, `reasons`, or the `source` of a component, or lies below one. */
  lemma {:induction false} HiddenNames(segments: seq<string>)
    requires segments != [] && NamedPosition(Top, segments) == Hidden && !EntersInvocations(segments)
    ensures ExcludedName(segments) || ReasonsName(segments) || SourceName(segments)
  {
    var rest := segments[1..];
    PlainStaysPlain(rest);
    if segments[0] == "observed" {
      HiddenInObserved(rest);
      if rest[0] == "identity" { HiddenInIdentity(rest[1..]); }
    } else if rest != [] {
      PlainStaysPlain(rest[1..]);
    }
  }

  predicate ExcludedName(segments: seq<string>) {
    |segments| >= 2 && (
      || (segments[0] == "resolved" && segments[1] in RESOLVED_EXCLUDED)
      || (segments[0] == "observed" && segments[1] in OBSERVED_EXCLUDED))
  }

  predicate ReasonsName(segments: seq<string>) {
    |segments| >= 3 && segments[0] == "observed" && segments[1] == "identity" && segments[2] == "reasons"
  }

  predicate SourceName(segments: seq<string>) {
    && |segments| >= 4 && segments[0] == "observed" && segments[1] == "identity" && segments[2] in COMPONENTS
    && segments[3] == "source"
  }

  /** Whenever `d` resolves to `w` on both sides, an issue-free comparison explains every difference. */
  ghost predicate Trusted(d: string, w: Value) {
    forall l, r :: Lookalikes(l, r, d, w) && IssueFree(l, r, OneControl(d)) ==> Explained(l, r, OneControl(d))
  }

  lemma {:induction false} EscapeIsNotExplained(l: Record, r: Record, d: string, p: string)
    requires Escapes(l, r, d, p)
    ensures !Explained(l, r, OneControl(d))
  {
    OkAndHeldIsExplained(OneControl(d), VisibleLeaves(l), VisibleLeaves(r));
  }

  lemma {:induction false} Tail(segments: seq<string>, first: string)
    requires segments != [] && segments[0] == first
    ensures segments == [first] + segments[1..]
  {}

  lemma {:induction false} ExcludedLoses(d: string, segments: seq<string>, w: Value) returns (l: Record, r: Record)
    requires IsDottedPath(d) && segments == Split(d) && ExcludedName(segments)
    requires EntersInvocations(segments) ==> |segments| > 2 || ShowsNoRow(w)
    ensures Deceives(l, r, d, w, d + ".z")
  {
    var root, rest := segments[0], segments[1..];
    Tail(segments, root);
    ExcludedShowsNothing(root, rest, w);
    RootFamily(root, d, rest, w);
    l, r := Sample(root, Shut(rest, w, map[])), Sample(root, Ajar(rest, w, map[]));
  }

  lemma {:induction false} IdentityTail(segments: seq<string>)
    requires |segments| >= 2 && segments[0] == "observed" && segments[1] == "identity"
    ensures segments == ["observed"] + (["identity"] + segments[2..])
  {}

  lemma {:induction false} HiddenLoses(d: string, segments: seq<string>, w: Value) returns (l: Record, r: Record)
    requires IsDottedPath(d) && segments == Split(d)
    requires EntersInvocations(segments) ==> |segments| > 2 || ShowsNoRow(w)
    requires ExcludedName(segments) || ReasonsName(segments) || SourceName(segments)
    ensures Deceives(l, r, d, w, d + ".z")
  {
    if ExcludedName(segments) {
      l, r := ExcludedLoses(d, segments, w);
    } else {
      IdentityTail(segments);
      var rest := segments[2..];
      if ReasonsName(segments) {
        ReasonsFamily(d, rest, w);
        l := Sample("observed", map["identity" := Map(Shut(rest, w, MORE))]);
        r := Sample("observed", map["identity" := Map(Ajar(rest, w, MORE))]);
      } else {
        var part, below := rest[0], rest[1..];
        Tail(rest, part);
        SourceFamily(d, part, below, w);
        l := Sample("observed", map["identity" := Map(map[part := Map(Shut(below, w, MORE))])]);
        r := Sample("observed", map["identity" := Map(map[part := Map(Ajar(below, w, MORE))])]);
      }
    }
  }

  /** Only a component of the identity has that position. */
  lemma {:induction false} ComponentNames(segments: seq<string>)
    requires segments != [] && NamedPosition(Top, segments) == Component && !EntersInvocations(segments)
    ensures |segments| == 3 && segments[2] in COMPONENTS && segments == ["observed"] + ["identity", segments[2]]
  {
    var rest := segments[1..];
    PlainStaysPlain(rest);
    HiddenStaysHidden(rest);
    if rest != [] {
      PlainStaysPlain(rest[1..]);
      HiddenStaysHidden(rest[1..]);
      if segments[0] == "observed" && rest[0] == "identity" { ComponentInIdentity(rest[1..]); }
    }
  }

  lemma {:induction false} ComponentInIdentity(segments: seq<string>)
    requires NamedPosition(Identity, segments) == Component
    ensures |segments| == 1 && segments[0] in COMPONENTS
  {
    if segments != [] {
      var rest := segments[1..];
      PlainStaysPlain(rest);
      HiddenStaysHidden(rest);
      if rest != [] {
        PlainStaysPlain(rest[1..]);
        HiddenStaysHidden(rest[1..]);
      }
    }
  }

  /** Every exposed declaration has two records that look alike to it, differ below it, and raise no issue. */
  lemma {:induction false} ExposedLoses(d: string, w: Value) returns (l: Record, r: Record, p: string)
    requires IsDottedPath(d) && Exposed(d, w)
    ensures Deceives(l, r, d, w, p)
  {
    var segments := Split(d);
    if EntersInvocations(segments) || NamedPosition(Top, segments) == Hidden {
      p := d + ".z";
      if !EntersInvocations(segments) { HiddenNames(segments); }
      l, r := HiddenLoses(d, segments, w);
    } else {
      ComponentNames(segments);
      var part := segments[2];
      p := ComponentFamily(d, part, w);
      l := Sample("observed", map["identity" := Map(map[part := w])]);
      r := Sample("observed", map[Join(["identity", part]) := w]);
    }
  }

  lemma {:induction false} UnexposedIsTrusted(d: string, w: Value)
    requires IsDottedPath(d) && !Exposed(d, w)
    ensures Trusted(d, w)
  {
    OneControlAccepted(d);
    forall l, r | Lookalikes(l, r, d, w) && IssueFree(l, r, OneControl(d)) ensures Explained(l, r, OneControl(d)) {
      UnexposedShelters(l, r, d, w);
      IssueFreeIsExplained(l, r, OneControl(d));
    }
  }

  lemma {:induction false} UnexposedShelters(l: Record, r: Record, d: string, w: Value)
    requires ResolveDimension(l, d) == Found(w) && !Exposed(d, w)
    ensures ShelteredPlan(l, r, OneControl(d))
  {
    assert Sheltered(l, r, d);
  }

  /** The skip of a control is sound at exactly the declarations that are not exposed. */
  lemma {:induction false} TrustedIffUnexposed(d: string, w: Value)
    requires IsDottedPath(d)
    ensures Trusted(d, w) <==> !Exposed(d, w)
  {
    if Exposed(d, w) {
      var l, r, p := ExposedLoses(d, w);
      EscapeIsNotExplained(l, r, d, p);
      assert Lookalikes(l, r, d, w);
    } else {
      UnexposedIsTrusted(d, w);
    }
  }
}
