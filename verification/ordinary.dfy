/** Ordinary records: the hypotheses of the comparison theorems are met, and met by many records. */
module Ordinary {
  import opened Paths
  import opened Evidence
  import opened Records
  import opened Resolve
  import opened Visibility
  import opened Coherence

  predicate FlatMap(m: map<string, Value>) {
    forall k :: k in m ==> '.' !in k && m[k].Leaf?
  }

  /** All evidence is atomic, under keys without dots. */
  predicate FlatRecord(r: Record) {
    && FlatMap(r.resolved) && FlatMap(r.observed)
    && forall k :: k in Requested(r.requested) ==> Requested(r.requested)[k].Leaf?
  }

  lemma {:induction false} FlatMapIsRegular(m: map<string, Value>, pos: Position)
    requires FlatMap(m) && pos in {ResolvedRoot, ObservedRoot}
    ensures Regular(Map(m), pos)
  {
    var v := Map(m);
    forall k, s | k in v.fields && s in Special(pos) && PathCovers(s, k) ensures k == s {
      if k != s { ProperExtensionHasDot(s, k); }
    }
  }

  lemma {:induction false} FlatViews(r: Record)
    requires FlatRecord(r)
    ensures FlatMap(r.resolved - RESOLVED_EXCLUDED) && FlatMap(ObservedView(r.observed))
  {}

  /** A root is a requested field or a dot-free key behind one of the two prefixes. */
  predicate RootKey(q: string) {
    || q in REQUESTED
    || ("resolved." <= q && '.' !in q[|"resolved."|..])
    || ("observed." <= q && '.' !in q[|"observed."|..])
  }

  lemma {:induction false} FlatRoot(r: Record, q: string)
    requires FlatRecord(r) && q in Roots(r)
    ensures RootKey(q) && Roots(r)[q].Leaf?
  {
    FlatViews(r);
    var resolved := Prefixed("resolved.", r.resolved - RESOLVED_EXCLUDED);
    var observed := Prefixed("observed.", ObservedView(r.observed));
    assert q in observed || q in resolved || q in Requested(r.requested);
  }

  lemma {:induction false} OneDot(name: string, q: string, a: string)
    requires '.' !in name && name + "." <= q && '.' !in q[|name| + 1..]
    requires PathCovers(a, q) && a != q
    ensures a == name
  {
    var rest := q[|name| + 1..];
    assert forall i :: |name| < i < |q| ==> q[i] == rest[i - |name| - 1];
    assert q[|a|] == '.' && q[..|name|] == name;
    assert forall i :: 0 <= i < |name| ==> q[i] == name[i];
  }

  lemma {:induction false} RootKeysApart(a: string, b: string)
    requires RootKey(a) && RootKey(b) && PathCovers(a, b)
    ensures a == b
  {
    if a != b {
      ProperExtensionHasDot(a, b);
      if b in REQUESTED { RootKeysAreDotFree(b); }
      RequestedNames();
      if "resolved." <= b && '.' !in b[|"resolved."|..] {
        OneDot("resolved", b, a);
      } else {
        OneDot("observed", b, a);
      }
    }
  }

  /** Flat records are regular and unambiguous. */
  lemma {:induction false} FlatRecordIsOrdinary(r: Record)
    requires FlatRecord(r)
    ensures RegularRecord(r) && UnambiguousRecord(r)
  {
    FlatMapIsRegular(r.resolved, ResolvedRoot);
    FlatMapIsRegular(r.observed, ObservedRoot);
    var v := Map(Roots(r));
    forall a, b | a in v.fields && b in v.fields && PathCovers(a, b) ensures a == b {
      FlatRoot(r, a);
      FlatRoot(r, b);
      RootKeysApart(a, b);
    }
    forall k | k in v.fields ensures Unambiguous(v.fields[k]) { FlatRoot(r, k); }
  }
}
