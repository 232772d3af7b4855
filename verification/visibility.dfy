/**
 * Which evidence a comparison can see, said once for the raw tree of a record: every position decides what it
 * hides, and no intermediate view is built. The engine's projected roots have exactly these leaves.
 */
module Visibility {
  import opened Paths
  import opened Wrappers
  import opened Evidence
  import opened Records
  import opened Resolve

  datatype Position =
    Top | ResolvedRoot | ObservedRoot | Identity | Component | Invocations | Row | Plain | Hidden

  /** The keys to which a position gives a meaning of their own. */
  function Special(pos: Position): set<string> {
    match pos
    case Top => {"resolved", "observed"}
    case ResolvedRoot => RESOLVED_EXCLUDED
    case ObservedRoot => OBSERVED_EXCLUDED + {"identity"}
    case Identity => COMPONENTS + {"reasons"}
    case Component => {"source"}
    case Row => INVOCATION_FIELDS
    case _ => {}
  }

  function ChildPosition(pos: Position, key: string): Position {
    match pos
    case Top => if key == "resolved" then ResolvedRoot else if key == "observed" then ObservedRoot else Plain
    case ResolvedRoot => if key == "support" then Hidden else Plain
    case ObservedRoot =>
      if key == "invocations" then Invocations
      else if key == "reset_count" || key == "closed" || key == "cleanup" then Hidden
      else if key == "identity" then Identity else Plain
    case Identity =>
      if key == "reasons" then Hidden
      else if key == "model" || key == "tokenizer" || key == "runtime" || key == "chat_template" || key == "applied"
      then Component
      else Plain
    case Component => if key == "source" then Hidden else Plain
    case Row =>
      if key == "prompt_sha256" || key == "rendered_prompt_sha256" || key == "system_sha256" || key == "generation"
      then Plain
      else Hidden
    case Plain => Plain
    case Invocations => Hidden
    case Hidden => Hidden
  }

  /** Positions whose value is itself a leaf when it is no mapping, or shows nothing of its mapping. */
  predicate ShowsItself(pos: Position) {
    pos in {Plain, Identity, Component}
  }

  ghost function VisibleChildren(v: Value, pos: Position, path: string): LeafSet
    requires v.Map?
    decreases v, 0
  {
    set k, leaf | k in v.fields && leaf in Visible(v.fields[k], ChildPosition(pos, k), Child(path, k)) :: leaf
  }

  ghost function Visible(v: Value, pos: Position, path: string): LeafSet
    decreases v, 1
  {
    if pos == Hidden then {}
    else if pos == Invocations then
      if v.Seq? then
        set i, leaf | 0 <= i < |v.items| && leaf in Visible(v.items[i], Row, Child(path, Decimal(i))) :: leaf
      else {}
    else if v.Map? && (VisibleChildren(v, pos, path) != {} || !ShowsItself(pos)) then VisibleChildren(v, pos, path)
    else if ShowsItself(pos) then {(path, if v.Map? then Map(map[]) else v)}
    else {}
  }

  lemma {:induction false} VisibleCovered(v: Value, pos: Position, path: string, leaf: (string, Value))
    requires path != "" && leaf in Visible(v, pos, path)
    ensures PathCovers(path, leaf.0)
  {
    if pos == Invocations {
      var i :| 0 <= i < |v.items| && leaf in Visible(v.items[i], Row, Child(path, Decimal(i)));
      VisibleCovered(v.items[i], Row, Child(path, Decimal(i)), leaf);
      CoversTransitive(path, Child(path, Decimal(i)), leaf.0);
    } else if v.Map? && (VisibleChildren(v, pos, path) != {} || !ShowsItself(pos)) {
      var k :| k in v.fields && leaf in Visible(v.fields[k], ChildPosition(pos, k), Child(path, k));
      VisibleCovered(v.fields[k], ChildPosition(pos, k), Child(path, k), leaf);
      CoversTransitive(path, Child(path, k), leaf.0);
    }
  }

  // ----- the engine's views show exactly the visible leaves -----

  lemma {:induction false} PlainIsLeaves(v: Value, path: string)
    requires path != ""
    ensures Visible(v, Plain, path) == Leaves(v, path)
  {
    if v.Map? {
      forall k | k in v.fields
        ensures Visible(v.fields[k], Plain, Child(path, k)) == Leaves(v.fields[k], Child(path, k))
      {
        PlainIsLeaves(v.fields[k], Child(path, k));
      }
      if v.fields != map[] {
        forall leaf ensures leaf in VisibleChildren(v, Plain, path) <==> leaf in Leaves(v, path) {
          if k :| k in v.fields && leaf in Visible(v.fields[k], ChildPosition(Plain, k), Child(path, k)) {
            assert leaf in Leaves(v.fields[k], Child(path, k));
          }
          if leaf in Leaves(v, path) {
            var k :| k in v.fields && leaf in Leaves(v.fields[k], Child(path, k));
            assert leaf in Visible(v.fields[k], ChildPosition(Plain, k), Child(path, k));
          }
        }
        LeavesAreCovered(v, path);
      } else {
        assert VisibleChildren(v, Plain, path) == {};
      }
    }
  }

  /**
   * A view that keeps the visible keys of a mapping, each showing what its position shows, has the leaves of that
   * mapping's position.
   */
  lemma {:induction false} ViewLeaves(v: Value, pos: Position, view: Value, path: string)
    requires path != "" && v.Map? && view.Map? && pos != Invocations && pos != Hidden
    requires forall k :: k in view.fields <==> k in v.fields && ChildPosition(pos, k) != Hidden
    requires forall k :: k in view.fields ==>
      Visible(v.fields[k], ChildPosition(pos, k), Child(path, k)) == Leaves(view.fields[k], Child(path, k))
    ensures VisibleChildren(v, pos, path) == if view.fields == map[] then {} else Leaves(view, path)
    ensures ShowsItself(pos) ==> Visible(v, pos, path) == Leaves(view, path)
  {
    var kids := VisibleChildren(v, pos, path);
    forall leaf ensures leaf in kids <==>
      exists k :: k in view.fields && leaf in Leaves(view.fields[k], Child(path, k))
    {
      if leaf in kids {
        var k :| k in v.fields && leaf in Visible(v.fields[k], ChildPosition(pos, k), Child(path, k));
        assert k in view.fields;
      }
    }
    if view.fields != map[] {
      LeavesAreCovered(view, path);
    }
  }

  lemma {:induction false} ComponentLeaves(v: Value, path: string)
    requires path != ""
    ensures Visible(v, Component, path) == Leaves(WithoutSource(v), path)
  {
    if v.Map? {
      forall k | k in v.fields { PlainIsLeaves(v.fields[k], Child(path, k)); }
      ViewLeaves(v, Component, WithoutSource(v), path);
    }
  }

  lemma {:induction false} IdentityLeaves(v: Value, path: string)
    requires path != ""
    ensures Visible(v, Identity, path) == Leaves(IdentityView(v), path)
  {
    if v.Map? {
      forall k | k in v.fields && k != "reasons"
        ensures Visible(v.fields[k], ChildPosition(Identity, k), Child(path, k))
             == Leaves(IdentityView(v).fields[k], Child(path, k))
      {
        if k in COMPONENTS { ComponentLeaves(v.fields[k], Child(path, k)); }
        else { PlainIsLeaves(v.fields[k], Child(path, k)); }
      }
      ViewLeaves(v, Identity, IdentityView(v), path);
    }
  }

  lemma {:induction false} RowLeaves(row: Value, path: string)
    requires path != ""
    ensures Visible(row, Row, path) == match RowView(row) case Some(view) => Leaves(view, path) case None => {}
  {
    if row.Map? {
      forall k | k in row.fields { PlainIsLeaves(row.fields[k], Child(path, k)); }
      var view := Map(map k | k in row.fields && k in INVOCATION_FIELDS :: row.fields[k]);
      ViewLeaves(row, Row, view, path);
      assert view.fields.Keys == row.fields.Keys * INVOCATION_FIELDS;
    }
  }

  lemma {:induction false} InvocationLeaf(
      rows: seq<Value>, views: map<string, Value>, path: string, leaf: (string, Value))
    requires path != "" && views == RowViews(rows, |rows|)
    ensures leaf in Visible(Seq(rows), Invocations, path) <==> leaf in EntryLeaves(views, path)
  {
    RowViewsContents(rows, |rows|, views);
    if leaf in Visible(Seq(rows), Invocations, path) {
      var i :| 0 <= i < |rows| && leaf in Visible(rows[i], Row, Child(path, Decimal(i)));
      RowLeaves(rows[i], Child(path, Decimal(i)));
      assert Decimal(i) in views;
    }
    if leaf in EntryLeaves(views, path) {
      var q :| q in views && leaf in Leaves(views[q], Child(path, q));
      var i :| 0 <= i < |rows| && q == Decimal(i) && RowView(rows[i]).Some?;
      RowLeaves(rows[i], Child(path, Decimal(i)));
      assert leaf in Visible(rows[i], Row, Child(path, Decimal(i)));
    }
  }

  lemma {:induction false} InvocationLeaves(rows: seq<Value>, path: string)
    requires path != ""
    ensures Visible(Seq(rows), Invocations, path) ==
      if RowViews(rows, |rows|) == map[] then {} else Leaves(Map(RowViews(rows, |rows|)), path)
  {
    var views := RowViews(rows, |rows|);
    forall leaf ensures leaf in Visible(Seq(rows), Invocations, path) <==> leaf in EntryLeaves(views, path) {
      InvocationLeaf(rows, views, path, leaf);
    }
    EntriesAreLeaves(views, path);
  }

  lemma {:induction false} EntriesAreLeaves(m: map<string, Value>, path: string)
    ensures EntryLeaves(m, path) == if m == map[] then {} else Leaves(Map(m), path)
  {
    assert forall leaf :: leaf in EntryLeaves(m, path) ==> exists k :: k in m && leaf in Leaves(m[k], Child(path, k));
  }

  ghost function EntryLeaves(m: map<string, Value>, path: string): LeafSet {
    set k, leaf | k in m && leaf in Leaves(m[k], Child(path, k)) :: leaf
  }

  lemma {:induction false} ResolvedLeaves(resolved: map<string, Value>)
    ensures Visible(Map(resolved), ResolvedRoot, "resolved") == EntryLeaves(resolved - RESOLVED_EXCLUDED, "resolved")
  {
    var view := resolved - RESOLVED_EXCLUDED;
    forall k | k in resolved { PlainIsLeaves(resolved[k], Child("resolved", k)); }
    ViewLeaves(Map(resolved), ResolvedRoot, Map(view), "resolved");
  }

  lemma {:induction false} ObservedLeaves(observed: map<string, Value>)
    ensures Visible(Map(observed), ObservedRoot, "observed") == EntryLeaves(ObservedView(observed), "observed")
  {
    var v, view := Map(observed), ObservedView(observed);
    forall leaf
      ensures leaf in VisibleChildren(v, ObservedRoot, "observed") <==> leaf in EntryLeaves(view, "observed")
    {
      if k :| k in observed && leaf in Visible(observed[k], ChildPosition(ObservedRoot, k), Child("observed", k)) {
        ObservedEntry(observed, k);
      }
      if k :| k in view && leaf in Leaves(view[k], Child("observed", k)) {
        ObservedEntry(observed, k);
      }
    }
  }

  lemma {:induction false} ObservedEntry(observed: map<string, Value>, k: string)
    requires k in observed
    ensures Visible(observed[k], ChildPosition(ObservedRoot, k), Child("observed", k)) ==
      if k in ObservedView(observed) then Leaves(ObservedView(observed)[k], Child("observed", k)) else {}
  {
    var path := Child("observed", k);
    if k == "invocations" {
      if observed[k].Seq? { InvocationLeaves(observed[k].items, path); }
    } else if k == "identity" {
      IdentityLeaves(observed[k], path);
    } else if k !in OBSERVED_EXCLUDED {
      PlainIsLeaves(observed[k], path);
    }
  }

  ghost function VisibleLeaves(r: Record): LeafSet {
    Visible(RawTree(r), Top, "")
  }

  ghost predicate HasLeaf(roots: map<string, Value>, leaf: (string, Value)) {
    exists q :: q in roots && leaf in Leaves(roots[q], q)
  }

  lemma {:induction false} PrefixedLeaves(name: string, m: map<string, Value>, leaf: (string, Value))
    requires name != ""
    ensures leaf in EntryLeaves(m, name) <==> HasLeaf(Prefixed(name + ".", m), leaf)
  {
    var prefix := name + ".";
    if leaf in EntryLeaves(m, name) {
      var k :| k in m && leaf in Leaves(m[k], Child(name, k));
      assert prefix + k in Prefixed(prefix, m);
    }
    if q :| q in Prefixed(prefix, m) && leaf in Leaves(Prefixed(prefix, m)[q], q) {
      var k := q[|prefix|..];
      assert q == prefix + k == Child(name, k);
    }
  }

  /** The three groups of roots keep out of each other's way. */
  lemma {:induction false} DisjointRoots(r: Record, resolved: map<string, Value>, observed: map<string, Value>)
    requires resolved == Prefixed("resolved.", r.resolved - RESOLVED_EXCLUDED)
    requires observed == Prefixed("observed.", ObservedView(r.observed))
    ensures REQUESTED !! resolved.Keys && REQUESTED !! observed.Keys && resolved.Keys !! observed.Keys
  {
    forall q | q in REQUESTED ensures q !in resolved && q !in observed {
      RootKeysAreDotFree(q);
      assert "resolved."[8] == "observed."[8] == '.';
    }
    forall q | q in resolved ensures q !in observed {
      assert q[0] == 'r';
    }
  }

  lemma {:induction false} RootsHaveLeaf(r: Record, leaf: (string, Value))
    ensures HasLeaf(Roots(r), leaf) <==>
      (HasLeaf(Requested(r.requested), leaf)
      || HasLeaf(Prefixed("resolved.", r.resolved - RESOLVED_EXCLUDED), leaf)
      || HasLeaf(Prefixed("observed.", ObservedView(r.observed)), leaf))
  {
    var resolved := Prefixed("resolved.", r.resolved - RESOLVED_EXCLUDED);
    var observed := Prefixed("observed.", ObservedView(r.observed));
    DisjointRoots(r, resolved, observed);
    UnionHasLeaf(Requested(r.requested), resolved, leaf);
    UnionHasLeaf(Requested(r.requested) + resolved, observed, leaf);
  }

  lemma {:induction false} UnionHasLeaf(m: map<string, Value>, n: map<string, Value>, leaf: (string, Value))
    requires m.Keys !! n.Keys
    ensures HasLeaf(m + n, leaf) <==> HasLeaf(m, leaf) || HasLeaf(n, leaf)
  {
    if q :| q in m && leaf in Leaves(m[q], q) { assert q in m + n && (m + n)[q] == m[q]; }
    if q :| q in n && leaf in Leaves(n[q], q) { assert q in m + n && (m + n)[q] == n[q]; }
  }

  ghost predicate ShowsBelowTop(fields: map<string, Value>, leaf: (string, Value)) {
    exists k :: k in fields && leaf in Visible(fields[k], ChildPosition(Top, k), k)
  }

  lemma {:induction false} TopShowsItsFields(fields: map<string, Value>, leaf: (string, Value))
    ensures leaf in Visible(Map(fields), Top, "") <==> ShowsBelowTop(fields, leaf)
  {
    var v := Map(fields);
    assert Visible(v, Top, "") == VisibleChildren(v, Top, "");
    if leaf in VisibleChildren(v, Top, "") {
      var k :| k in v.fields && leaf in Visible(v.fields[k], ChildPosition(Top, k), Child("", k));
      assert k in fields;
    }
    if k :| k in fields && leaf in Visible(fields[k], ChildPosition(Top, k), k) {
      assert k in v.fields && leaf in Visible(v.fields[k], ChildPosition(Top, k), Child("", k));
    }
  }

  lemma {:induction false} PlainFields(requested: map<string, Value>, k: string)
    requires k in requested && k != "" && k != "resolved" && k != "observed"
    ensures Visible(requested[k], ChildPosition(Top, k), k) == Leaves(requested[k], k)
  {
    PlainIsLeaves(requested[k], k);
  }

  lemma {:induction false} TopLeaves(
      requested: map<string, Value>, resolved: Value, observed: Value, leaf: (string, Value))
    requires "" !in requested && "resolved" !in requested && "observed" !in requested
    ensures leaf in Visible(Map(requested["resolved" := resolved]["observed" := observed]), Top, "") <==>
      (HasLeaf(requested, leaf)
      || leaf in Visible(resolved, ResolvedRoot, "resolved")
      || leaf in Visible(observed, ObservedRoot, "observed"))
  {
    var fields := requested["resolved" := resolved]["observed" := observed];
    TopShowsItsFields(fields, leaf);
    if k :| k in fields && leaf in Visible(fields[k], ChildPosition(Top, k), k) {
      if k in requested { PlainFields(requested, k); }
    }
    if k :| k in requested && leaf in Leaves(requested[k], k) {
      PlainFields(requested, k);
      assert k in fields && leaf in Visible(fields[k], ChildPosition(Top, k), k);
    }
    assert "resolved" in fields && "observed" in fields;
  }

  lemma {:induction false} RequestedNames()
    ensures "" !in REQUESTED && "resolved" !in REQUESTED && "observed" !in REQUESTED && REQUESTED != {}
  {
    assert "model" in REQUESTED;
  }

  lemma {:induction false} ResolvedHasLeaf(resolved: map<string, Value>, leaf: (string, Value))
    ensures leaf in Visible(Map(resolved), ResolvedRoot, "resolved") <==>
      HasLeaf(Prefixed("resolved.", resolved - RESOLVED_EXCLUDED), leaf)
  {
    ResolvedLeaves(resolved);
    assert "resolved" + "." == "resolved.";
    PrefixedLeaves("resolved", resolved - RESOLVED_EXCLUDED, leaf);
  }

  lemma {:induction false} ObservedHasLeaf(observed: map<string, Value>, leaf: (string, Value))
    ensures leaf in Visible(Map(observed), ObservedRoot, "observed") <==>
      HasLeaf(Prefixed("observed.", ObservedView(observed)), leaf)
  {
    ObservedLeaves(observed);
    assert "observed" + "." == "observed.";
    PrefixedLeaves("observed", ObservedView(observed), leaf);
  }

  lemma {:induction false} SameLeaf(r: Record, leaf: (string, Value))
    ensures HasLeaf(Roots(r), leaf) <==> leaf in VisibleLeaves(r)
  {
    RequestedNames();
    RootsHaveLeaf(r, leaf);
    ResolvedHasLeaf(r.resolved, leaf);
    ObservedHasLeaf(r.observed, leaf);
    TopLeaves(Requested(r.requested), Map(r.resolved), Map(r.observed), leaf);
  }

  /** Flattening the projected roots shows the visible leaves of the raw record: neither more nor fewer. */
  lemma {:induction false} ProjectedLeaf(r: Record, roots: map<string, Value>, leaf: (string, Value))
    requires roots == Roots(r)
    ensures leaf in Leaves(Map(roots), "") <==> leaf in VisibleLeaves(r)
  {
    RootsNotEmpty(r);
    RootsAreTopLevel(roots, leaf);
    SameLeaf(r, leaf);
  }

  lemma {:induction false} ProjectedLeaves(r: Record, roots: map<string, Value>)
    requires roots == Roots(r)
    ensures forall leaf :: leaf in Leaves(Map(roots), "") <==> leaf in VisibleLeaves(r)
  {
    forall leaf ensures leaf in Leaves(Map(roots), "") <==> leaf in VisibleLeaves(r) { ProjectedLeaf(r, roots, leaf); }
  }

  lemma {:induction false} SameMembers(a: LeafSet, b: LeafSet)
    requires forall leaf :: leaf in a <==> leaf in b
    ensures a == b
  {}

  lemma {:induction false} ProjectionIsVisibility(r: Record)
    ensures Leaves(Map(Roots(r)), "") == VisibleLeaves(r)
  {
    ProjectedLeaves(r, Roots(r));
    SameMembers(Leaves(Map(Roots(r)), ""), VisibleLeaves(r));
  }

  /** `_comparison_roots`: flattening what it returns shows the visible leaves of the raw record. */
  method ComparisonRoots(r: Record) returns (roots: map<string, Value>)
    ensures roots == Roots(r)
    ensures Leaves(Map(roots), "") == VisibleLeaves(r)
  {
    roots := Requested(r.requested) + Prefixed("resolved.", r.resolved - RESOLVED_EXCLUDED);
    var observed := ProjectObserved(r.observed);
    roots := roots + Prefixed("observed.", observed);
    ProjectionIsVisibility(r);
  }

  lemma {:induction false} RootsAreTopLevel(roots: map<string, Value>, leaf: (string, Value))
    requires roots != map[]
    ensures leaf in Leaves(Map(roots), "") <==> HasLeaf(roots, leaf)
  {
    var v := Map(roots);
    if leaf in Leaves(v, "") {
      var k :| k in v.fields && leaf in Leaves(v.fields[k], Child("", k));
      assert k in roots;
    }
    if q :| q in roots && leaf in Leaves(roots[q], q) {
      assert q in v.fields && leaf in Leaves(v.fields[q], Child("", q));
    }
  }

  lemma {:induction false} RootsNotEmpty(r: Record)
    ensures Roots(r) != map[] && "" !in Roots(r)
  {
    RequestedNames();
    var k :| k in REQUESTED;
    assert k in Roots(r);
  }
}
