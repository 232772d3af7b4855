/** The two-rename installation of a verified tree, with rollback. */
module Install {
  import opened Wrappers

  /** How a file-system call ends; an interrupt may arrive before or after it has taken effect. */
  datatype Call = Succeeds | RaisesBefore | RaisesAfter

  /** The directory entries that the installation touches. */
  datatype Entries<T> = Entries(target: Option<T>, previous: Option<T>, ready: Option<T>)

  /** Wherever execution stops, the old tree is still there, unless the new one has taken its place. */
  ghost predicate Safe<T>(e: Entries<T>, old_: Option<T>, fresh_: T) {
    && (old_.Some? ==> e.target == old_ || e.previous == old_ || e.target == Some(fresh_))
    && (e.target.None? || e.target == old_ || e.target == Some(fresh_))
  }

  /** The ready tree reaches `target`: nothing was there or it could be moved aside, and the move took effect. */
  ghost predicate Promoted<T>(target: Option<T>, unexpected: bool, aside: Call, promote: Call) {
    (target.None? || (!unexpected && aside.Succeeds?)) && !promote.RaisesBefore?
  }

  /** The old tree was never moved aside, or moving it back took effect. */
  ghost predicate PutBack(unexpected: bool, aside: Call, restore: Call) {
    unexpected || aside.RaisesBefore? || !restore.RaisesBefore?
  }

  class Workspace<T(!new)> {
    var entries: Entries<T>
    ghost var history: seq<Entries<T>>  // every state in which execution could have stopped

    constructor (target: Option<T>, ready: T)
      ensures entries == Entries(target, None, Some(ready)) && history == [entries]
    {
      entries := Entries(target, None, Some(ready));
      new;
      history := [entries];
    }

    method Set(e: Entries<T>)
      modifies this
      ensures entries == e && history == old(history) + [e]
    {
      entries := e;
      history := history + [e];
    }

    /** Move the tree at `target` aside. */
    method SetAside(call: Call) returns (raised: bool)
      requires entries.target.Some?
      modifies this
      ensures raised <==> !call.Succeeds?
      ensures entries == if call.RaisesBefore? then old(entries)
                         else old(entries).(target := None, previous := old(entries).target)
      ensures history == if call.RaisesBefore? then old(history) else old(history) + [entries]
    {
      if !call.RaisesBefore? { Set(entries.(target := None, previous := entries.target)); }
      return !call.Succeeds?;
    }

    /** Move the ready tree to `target`. */
    method Promote(call: Call) returns (raised: bool)
      requires entries.ready.Some? && entries.target.None?
      modifies this
      ensures raised <==> !call.Succeeds?
      ensures entries == if call.RaisesBefore? then old(entries)
                         else old(entries).(target := old(entries).ready, ready := None)
      ensures history == if call.RaisesBefore? then old(history) else old(history) + [entries]
    {
      if !call.RaisesBefore? { Set(entries.(target := entries.ready, ready := None)); }
      return !call.Succeeds?;
    }

    /** Move the old tree back to `target`. */
    method Restore(call: Call) returns (raised: bool)
      requires entries.previous.Some? && entries.target.None?
      modifies this
      ensures raised <==> !call.Succeeds?
      ensures entries == if call.RaisesBefore? then old(entries)
                         else old(entries).(target := old(entries).previous, previous := None)
      ensures history == if call.RaisesBefore? then old(history) else old(history) + [entries]
    {
      if !call.RaisesBefore? { Set(entries.(target := entries.previous, previous := None)); }
      return !call.Succeeds?;
    }

    /** Remove the workspace: it may stop half-way, having removed either, both or neither of the two trees. */
    method Discard(call: Call, previousFirst: bool) returns (raised: bool)
      modifies this
      ensures raised <==> !call.Succeeds?
      ensures entries.target == old(entries).target
      ensures call.Succeeds? ==> entries.previous.None? && entries.ready.None?
      ensures exists a: Entries<T>, b: Entries<T> ::
        && a.target == entries.target && b.target == entries.target
        && history == old(history) + (if call.RaisesBefore? then [] else if call.RaisesAfter? then [a] else [a, b])
    {
      ghost var start := history;
      var target := entries.target;
      var first := if previousFirst then entries.(previous := None) else entries.(ready := None);
      var both := Entries(target, None, None);
      if !call.RaisesBefore? {
        Set(first);
        if call.Succeeds? { Set(both); }
      }
      assert first.target == entries.target && both.target == entries.target;
      assert history == start
        + (if call.RaisesBefore? then [] else if call.RaisesAfter? then [first] else [first, both]);
      return !call.Succeeds?;
    }

    /**
     * The end of `extract_verified_zip`. `unexpected` is the outcome of checking an existing target once more;
     * the four calls may each fail or be interrupted on either side of their effect.
     */
    method Install(
      ghost fresh_: T, unexpected: bool, aside: Call, promote: Call, restore: Call, discard: Call, previousFirst: bool)
      returns (raised: bool)
      requires entries.previous.None? && entries.ready == Some(fresh_) && history == [entries]
      modifies this
      ensures forall e :: e in history ==> Safe(e, old(entries).target, fresh_)
      ensures !raised ==> entries == Entries(Some(fresh_), None, None)
      ensures raised ==>
        || entries.target == old(entries).target
        || entries.target == Some(fresh_)
        || (entries.target.None? && entries.previous == old(entries).target)
      ensures entries.target.Some? || old(entries).target.None? || entries.previous == old(entries).target
      ensures Promoted(old(entries).target, unexpected, aside, promote) ==> entries.target == Some(fresh_)
      ensures !Promoted(old(entries).target, unexpected, aside, promote) && PutBack(unexpected, aside, restore) ==>
        entries.target == old(entries).target
      ensures (entries.target.Some? || old(entries).target.None?) && discard.Succeeds? ==>
        entries.previous.None? && entries.ready.None?
      ensures raised <==> (old(entries).target.Some? && (unexpected || !aside.Succeeds?))
                          || !promote.Succeeds? || !discard.Succeeds?
    {
      ghost var start := entries.target;
      raised := false;
      if entries.target.Some? && unexpected {
        raised := true;
      } else {
        if entries.target.Some? { raised := SetAside(aside); }
        if !raised { raised := Promote(promote); }
        if raised && entries.previous.Some? && entries.target.None? {
          var again := Restore(restore);
        }
      }
      if entries.previous.None? || entries.target.Some? {
        ghost var before := history;
        assert forall e :: e in before ==> Safe(e, start, fresh_);
        var failed := Discard(discard, previousFirst);
        forall e | e in history ensures Safe(e, start, fresh_) {
          if e !in before { assert e.target == entries.target; }
        }
        raised := raised || failed;
      }
    }
  }
}
