/** Replaying the change feed rebuilds the namespace: a reader that starts from
    the live paths and applies each event in order ends with the live paths. */
module FeedReplay {
  import opened Wrappers
  import opened DentryGraph
  import opened Tables
  import opened NamespaceInvariants
  import opened NamespaceRuns

  ghost predicate Under(prefix: Path, p: Path) { prefix <= p }

  /** A reader's update: create adds, remove deletes, rename moves every path at
      or under the old path, modify changes no name. */
  ghost function Replay1(s: iset<Path>, e: Event): iset<Path> {
    match e
    case Create(p, _) => s + iset{p}
    case Remove(p, _) => s - iset{p}
    case Rename(p, Some(old_), _) =>
      iset x | (x in s && !(old_ <= x)) || (p <= x && old_ + x[|p|..] in s)
    case Rename(_, None, _) => s
    case Modify(_, _) => s
  }

  ghost function Replay(s: iset<Path>, feed: seq<Event>): iset<Path> {
    if feed == [] then s else Replay1(Replay(s, feed[..|feed| - 1]), feed[|feed| - 1])
  }

  lemma ReplaySnoc(s: iset<Path>, feed: seq<Event>, e: Event)
    ensures Replay(s, feed + [e]) == Replay1(Replay(s, feed), e)
  {
    assert (feed + [e])[..|feed|] == feed;
  }

  lemma {:induction false} ReplayAppend(s: iset<Path>, a: seq<Event>, b: seq<Event>)
    ensures Replay(s, a + b) == Replay(Replay(s, a), b)
    decreases |b|
  {
    if b == [] {
      assert a + b == a;
    } else {
      ReplayAppend(s, a, b[..|b| - 1]);
      assert a + b == (a + b[..|b| - 1]) + [b[|b| - 1]];
      ReplaySnoc(s, a + b[..|b| - 1], b[|b| - 1]);
    }
  }

  /** The events an operation appended. */
  ghost function News(t: Tables, t': Tables): seq<Event>
    requires t.feed <= t'.feed
  {
    t'.feed[|t.feed|..]
  }

  /** The events between two states, replayed over the first, give the second. */
  ghost predicate InStep(t: Tables, t': Tables) {
    t.feed <= t'.feed && Replay(Live(t.dentry), News(t, t')) == Live(t'.dentry)
  }

  lemma InStepCompose(t: Tables, t1: Tables, t2: Tables)
    requires InStep(t, t1) && t1.feed <= t2.feed
    ensures InStep(t, t2) <==> InStep(t1, t2)
  {
    assert t2.feed[|t.feed|..] == t1.feed[|t.feed|..] + t2.feed[|t1.feed|..];
    ReplayAppend(Live(t.dentry), News(t, t1), News(t1, t2));
  }

  lemma SameDentryInStep(t: Tables, t': Tables)
    requires t'.dentry == t.dentry && t.feed <= t'.feed
    requires forall e | e in News(t, t') :: e.Modify?
    ensures InStep(t, t')
  {
    ModifiesReplay(Live(t.dentry), News(t, t'));
  }

  lemma {:induction false} ModifiesReplay(s: iset<Path>, feed: seq<Event>)
    requires forall e | e in feed :: e.Modify?
    ensures Replay(s, feed) == s
    decreases |feed|
  {
    if feed != [] {
      ModifiesReplay(s, feed[..|feed| - 1]);
      assert feed[|feed| - 1] in feed;
    }
  }

  // --- One row ------------------------------------------------------------------

  lemma OneEvent(s: iset<Path>, e: Event)
    ensures Replay(s, [e]) == Replay1(s, e)
  {
    ReplaySnoc(s, [], e);
    assert [] + [e] == [e];
  }

  /** A new row for a leaf is announced exactly when it becomes a live path. */
  lemma InsertInStep(t: Tables, dirs: set<int>, k: Key, c: int, t': Tables)
    requires t'.dentry == t.dentry[k := c] && t'.feed == InsertRow(t, k, c).feed
    requires k !in t.dentry && Empty(t.dentry, c) && c != k.0
    requires TreeShaped(t.dentry, dirs) && TreeShaped(t'.dentry, dirs) && k.0 in dirs
    ensures InStep(t, t')
  {
    var d, d' := t.dentry, t'.dentry;
    forall p ensures Walk(d, c, p) != Some(k.0) { LeafWalk(d, c, p); }
    if Reaches(d, ROOT, k.0) {
      var q :| Walk(d, ROOT, q) == Some(k.0);
      WalkMonotone(d, d', ROOT, q);
      PathExprFindsPath(d', dirs, k.0, [k.1], q);
      OneEvent(Live(d), Create(q + [k.1], c));
      assert News(t, t') == [Create(q + [k.1], c)];
      forall p ensures p in Live(d') <==> p in Live(d) + iset{q + [k.1]} {
        WalkWith(d, dirs, k, c, q, p);
        LeafWalk(d, c, if q + [k.1] <= p then p[|q| + 1..] else []);
        if q + [k.1] <= p && p != q + [k.1] { LivePrefix(d, p, q, k); }
      }
    } else {
      forall p ensures Walk(d', ROOT, p) == Walk(d, ROOT, p) { WalkWithDetached(d, k, c, p); }
      assert !Reaches(d', ROOT, k.0);
      PathExprDetached(d', k.0, [k.1]);
      assert News(t, t') == [];
      assert Live(d') == Live(d);
    }
  }

  /** A path through a row that is not there is not live. */
  lemma LivePrefix(d: Graph, p: Path, q: Path, k: Key)
    requires Walk(d, ROOT, q) == Some(k.0) && k !in d && q + [k.1] <= p
    ensures Walk(d, ROOT, p) == None
  {
    assert p == q + [k.1] + p[|q| + 1..];
    WalkSnoc(d, ROOT, q, k.1);
    WalkAppend(d, ROOT, q + [k.1], p[|q| + 1..]);
  }

  /** A deleted row of a leaf is announced exactly when it was a live path. */
  lemma DeleteInStep(t: Tables, k: Key, t': Tables)
    requires k in t.dentry && Empty(t.dentry, t.dentry[k])
    requires t'.dentry == t.dentry - {k} && t'.feed == DeleteRow(t, k).feed
    requires TreeShaped(t.dentry, Dirs(t.inode))
    ensures InStep(t, t')
  {
    var d, d', dirs := t.dentry, t'.dentry, Dirs(t.inode);
    SubgraphTreeShaped(d', d, dirs);
    if Reaches(d, ROOT, k.0) {
      var q :| Walk(d, ROOT, q) == Some(k.0);
      WalkAvoids(d, k, q);
      PathExprFindsPath(d', dirs, k.0, [k.1], q);
      OneEvent(Live(d), Remove(q + [k.1], d[k]));
      assert News(t, t') == [Remove(q + [k.1], d[k])];
      forall p ensures p in Live(d') <==> p in Live(d) - iset{q + [k.1]} {
        WalkWithout(d, dirs, k, q, p);
        if q + [k.1] <= p { BelowLeaf(d, p, q, k); }
      }
    } else {
      forall p ensures Walk(d', ROOT, p) == Walk(d, ROOT, p) { WalkWithoutDetached(d, k, p); }
      assert !Reaches(d', ROOT, k.0);
      PathExprDetached(d', k.0, [k.1]);
      assert News(t, t') == [];
      assert Live(d') == Live(d);
    }
  }

  lemma BelowLeaf(d: Graph, p: Path, q: Path, k: Key)
    requires k in d && Empty(d, d[k]) && Walk(d, ROOT, q) == Some(k.0) && q + [k.1] <= p
    ensures Walk(d, ROOT, p).Some? ==> p == q + [k.1]
  {
    assert p == q + [k.1] + p[|q| + 1..];
    WalkSnoc(d, ROOT, q, k.1);
    WalkAppend(d, ROOT, q + [k.1], p[|q| + 1..]);
    LeafWalk(d, d[k], p[|q| + 1..]);
  }

  // --- Moving a row ---------------------------------------------------------------

  /** Walks that start below the moved entry never use its row. */
  lemma {:induction false} WalkBelow(d: Graph, k: Key, p: Path)
    requires Acyclic(d) && k in d
    ensures Walk(d - {k}, d[k], p) == Walk(d, d[k], p)
    ensures Walk(d, d[k], p) != Some(k.0)
    decreases |p|
  {
    if Walk(d, d[k], p) == Some(k.0) {
      WalkSnoc(d, k.0, [], k.1);
      assert [] + [k.1] == [k.1];
      WalkAppend(d, k.0, [k.1], p);
      assert false;
    }
    if p != [] { WalkBelow(d, k, p[..|p| - 1]); }
  }

  /** What a move needs: the target name is free and the new parent is not below
      the moved entry. */
  ghost predicate Movable(d: Graph, dirs: set<int>, k: Key, k': Key) {
    && k in d && k' !in d && k'.0 in dirs
    && TreeShaped(d, dirs) && TreeShaped((d - {k})[k' := d[k]], dirs)
    && !Reaches(d, d[k], k'.0)
  }

  /** The old parent keeps its path, and the new parent too. */
  lemma MovedParents(d: Graph, dirs: set<int>, k: Key, k': Key, q: Path, j: int)
    requires k in d && k' !in d && TreeShaped(d, dirs)
    requires Walk(d, ROOT, q) == Some(j) && !Reaches(d, d[k], j)
    ensures Walk(d - {k}, ROOT, q) == Some(j)
    ensures Walk((d - {k})[k' := d[k]], ROOT, q) == Some(j)
  {
    var e := d - {k};
    if Reaches(d, ROOT, k.0) {
      var r :| Walk(d, ROOT, r) == Some(k.0);
      WalkWithout(d, dirs, k, r, q);
      if r + [k.1] <= q {
        assert q == r + [k.1] + q[|r| + 1..];
        WalkSnoc(d, ROOT, r, k.1);
        WalkAppend(d, ROOT, r + [k.1], q[|r| + 1..]);
        assert false;
      }
    } else {
      WalkWithoutDetached(d, k, q);
    }
    WalkMonotone(e, e[k' := d[k]], ROOT, q);
  }

  lemma OldParentNotBelow(d: Graph, k: Key)
    requires Acyclic(d) && k in d
    ensures !Reaches(d, d[k], k.0)
  {
    forall p ensures Walk(d, d[k], p) != Some(k.0) { WalkBelow(d, k, p); }
  }

  /** Both parents live: the one rename event moves the whole subtree. */
  lemma MoveLive(t: Tables, dirs: set<int>, k: Key, k': Key, t': Tables)
    requires Movable(t.dentry, dirs, k, k')
    requires t'.dentry == (t.dentry - {k})[k' := t.dentry[k]] && t'.feed == MoveRow(t, k, k').feed
    requires Reaches(t.dentry, ROOT, k.0) && Reaches(t.dentry, ROOT, k'.0)
    ensures InStep(t, t')
  {
    var d, d', c := t.dentry, t'.dentry, t.dentry[k];
    var q1 :| Walk(d, ROOT, q1) == Some(k.0);
    var q2 :| Walk(d, ROOT, q2) == Some(k'.0);
    var was, now := q1 + [k.1], q2 + [k'.1];
    MoveNews(t, dirs, k, k', t', q1, q2);
    OneEvent(Live(d), Rename(now, Some(was), c));
    forall p ensures p in Live(d') <==> p in Replay1(Live(d), Rename(now, Some(was), c)) {
      MovedPath(d, dirs, k, k', q1, q2, p);
    }
  }

  lemma MoveNews(t: Tables, dirs: set<int>, k: Key, k': Key, t': Tables, q1: Path, q2: Path)
    requires Movable(t.dentry, dirs, k, k')
    requires t'.dentry == (t.dentry - {k})[k' := t.dentry[k]] && t'.feed == MoveRow(t, k, k').feed
    requires Walk(t.dentry, ROOT, q1) == Some(k.0) && Walk(t.dentry, ROOT, q2) == Some(k'.0)
    ensures News(t, t') == [Rename(q2 + [k'.1], Some(q1 + [k.1]), t.dentry[k])]
  {
    OldParentNotBelow(t.dentry, k);
    MovedParents(t.dentry, dirs, k, k', q1, k.0);
    MovedParents(t.dentry, dirs, k, k', q2, k'.0);
    PathExprFindsPath(t'.dentry, dirs, k'.0, [k'.1], q2);
    PathExprFindsPath(t'.dentry, dirs, k.0, [k.1], q1);
  }

  lemma MovedPath(d: Graph, dirs: set<int>, k: Key, k': Key, q1: Path, q2: Path, p: Path)
    requires Movable(d, dirs, k, k')
    requires Walk(d, ROOT, q1) == Some(k.0) && Walk(d, ROOT, q2) == Some(k'.0)
    ensures Walk((d - {k})[k' := d[k]], ROOT, p).Some? <==>
            || (Walk(d, ROOT, p).Some? && !(q1 + [k.1] <= p))
            || (q2 + [k'.1] <= p && Walk(d, ROOT, q1 + [k.1] + p[|q2| + 1..]).Some?)
  {
    var e, c, was, now := d - {k}, d[k], q1 + [k.1], q2 + [k'.1];
    SubgraphTreeShaped(e, d, dirs);
    MovedParents(d, dirs, k, k', q2, k'.0);
    forall r ensures Walk(e, c, r) != Some(k'.0) {
      WalkBelow(d, k, r);
      assert Walk(d, c, r) != Some(k'.0);
    }
    WalkWith(e, dirs, k', c, q2, p);
    WalkWithout(d, dirs, k, q1, p);
    if now <= p {
      var r := p[|q2| + 1..];
      WalkBelow(d, k, r);
      WalkSnoc(d, ROOT, q1, k.1);
      WalkAppend(d, ROOT, was, r);
      LivePrefix(d, p, q2, k');
    }
  }

  /** Neither parent live: no event, and no live path changes. */
  lemma MoveDetachedInStep(t: Tables, k: Key, k': Key, t': Tables)
    requires k in t.dentry && k' !in t.dentry
    requires t'.dentry == (t.dentry - {k})[k' := t.dentry[k]] && t'.feed == MoveRow(t, k, k').feed
    requires !Reaches(t.dentry, ROOT, k.0) && !Reaches(t.dentry, ROOT, k'.0)
    ensures InStep(t, t')
  {
    var d, e, d' := t.dentry, t.dentry - {k}, t'.dentry;
    forall p ensures Walk(e, ROOT, p) == Walk(d, ROOT, p) { WalkWithoutDetached(d, k, p); }
    assert !Reaches(e, ROOT, k'.0);
    forall p ensures Walk(d', ROOT, p) == Walk(d, ROOT, p) { WalkWithDetached(e, k', d[k], p); }
    assert !Reaches(d', ROOT, k'.0);
    PathExprDetached(d', k'.0, [k'.1]);
    assert News(t, t') == [];
    assert Live(d') == Live(d);
  }

  /** From a live parent to a detached one: the paths vanish without an event. */
  lemma MoveAway(t: Tables, dirs: set<int>, k: Key, k': Key, t': Tables)
    requires Movable(t.dentry, dirs, k, k')
    requires t'.dentry == (t.dentry - {k})[k' := t.dentry[k]] && t'.feed == MoveRow(t, k, k').feed
    requires Reaches(t.dentry, ROOT, k.0) && !Reaches(t.dentry, ROOT, k'.0)
    ensures t.feed <= t'.feed && !InStep(t, t')
  {
    var d, e, d' := t.dentry, t.dentry - {k}, t'.dentry;
    var q :| Walk(d, ROOT, q) == Some(k.0);
    var p := q + [k.1];
    WalkSnoc(d, ROOT, q, k.1);
    WalkWithout(d, dirs, k, q, p);
    forall r ensures Walk(e, ROOT, r) != Some(k'.0) {
      if Walk(e, ROOT, r).Some? { WalkMonotone(e, d, ROOT, r); }
    }
    forall r ensures Walk(d', ROOT, r) == Walk(e, ROOT, r) { WalkWithDetached(e, k', d[k], r); }
    assert !Reaches(d', ROOT, k'.0);
    PathExprDetached(d', k'.0, [k'.1]);
    assert News(t, t') == [];
    assert p in Live(d) && p !in Live(d');
  }

  /** From a detached parent to a live one: the event has no old path to move. */
  lemma MoveIn(t: Tables, dirs: set<int>, k: Key, k': Key, t': Tables)
    requires Movable(t.dentry, dirs, k, k')
    requires t'.dentry == (t.dentry - {k})[k' := t.dentry[k]] && t'.feed == MoveRow(t, k, k').feed
    requires !Reaches(t.dentry, ROOT, k.0) && Reaches(t.dentry, ROOT, k'.0)
    ensures t.feed <= t'.feed && !InStep(t, t')
  {
    var d, e, d', c := t.dentry, t.dentry - {k}, t'.dentry, t.dentry[k];
    var q :| Walk(d, ROOT, q) == Some(k'.0);
    MovedParents(d, dirs, k, k', q, k'.0);
    SubgraphTreeShaped(e, d, dirs);
    PathExprFindsPath(d', dirs, k'.0, [k'.1], q);
    forall r ensures Walk(e, c, r) != Some(k'.0) { WalkBelow(d, k, r); assert Walk(d, c, r) != Some(k'.0); }
    forall r ensures Walk(d', ROOT, r) != Some(k.0) {
      WalkWith(e, dirs, k', c, q, r);
      if q + [k'.1] <= r { WalkBelow(d, k, r[|q| + 1..]); }
      else if Walk(e, ROOT, r).Some? { WalkMonotone(e, d, ROOT, r); }
    }
    assert !Reaches(d', ROOT, k.0);
    PathExprDetached(d', k.0, [k.1]);
    var p := q + [k'.1];
    assert News(t, t') == [Rename(p, None, c)];
    OneEvent(Live(d), Rename(p, None, c));
    WalkSnoc(d', ROOT, q, k'.1);
    LivePrefix(d, p, q, k');
    assert p in Live(d') && p !in Live(d);
  }

  /** A moved row is in step with the feed exactly when both parents are live or
      neither is. */
  lemma MoveRowExactly(t: Tables, dirs: set<int>, k: Key, k': Key, t': Tables)
    requires Movable(t.dentry, dirs, k, k')
    requires t'.dentry == (t.dentry - {k})[k' := t.dentry[k]] && t'.feed == MoveRow(t, k, k').feed
    ensures t.feed <= t'.feed
    ensures InStep(t, t') <==> (Reaches(t.dentry, ROOT, k.0) <==> Reaches(t.dentry, ROOT, k'.0))
  {
    if Reaches(t.dentry, ROOT, k.0) {
      if Reaches(t.dentry, ROOT, k'.0) { MoveLive(t, dirs, k, k', t'); } else { MoveAway(t, dirs, k, k', t'); }
    } else {
      if Reaches(t.dentry, ROOT, k'.0) { MoveIn(t, dirs, k, k', t'); } else { MoveDetachedInStep(t, k, k', t'); }
    }
  }

  // --- Operations -------------------------------------------------------------------

  /** A rename that is about to move an entry between a root-reachable directory
      and one that a lease alone keeps. */
  ghost predicate CrossesReach(t: Tables, op: Op) {
    && op.OpRename?
    && Renames(t, (op.oldParent, op.oldName), (op.newParent, op.newName))
    && (Reaches(t.dentry, ROOT, op.oldParent) <==> !Reaches(t.dentry, ROOT, op.newParent))
  }

  lemma FreshInStep(t: Tables, k: Key, t': Tables)
    requires Sound(t) && k !in t.dentry && IsDir(t.inode, k.0)
    requires t'.dentry == t.dentry[k := t.nextIno] && t'.feed == InsertRow(t, k, t.nextIno).feed
    ensures InStep(t, t')
  {
    AttachLeaf(t.dentry, Dirs(t.inode), k, t.nextIno);
    InsertInStep(t, Dirs(t.inode), k, t.nextIno, t');
  }

  lemma AddLinkInStep(t: Tables, source: int, k: Key, now: Time)
    requires Sound(t) && k !in t.dentry && IsDir(t.inode, k.0)
    requires source in t.inode && !IsDir(t.inode, source)
    ensures InStep(t, AddLink(t, source, k, now))
  {
    AddLinkFields(t, source, k, now);
    AttachLeaf(t.dentry, Dirs(t.inode), k, source);
    InsertInStep(t, Dirs(t.inode), k, source, AddLink(t, source, k, now));
  }

  lemma DisplaceInStep(t: Tables, k: Key, now: Time)
    requires Sound(t) && k in t.dentry && IsDir(t.inode, k.0) && Empty(t.dentry, t.dentry[k])
    ensures InStep(t, Displace(t, k, now))
    ensures Displace(t, k, now).dentry == t.dentry - {k}
  {
    RowNotLoop(t, k);
    UnlinkedFields(t, k, now);
    DeleteInStep(t, k, Displace(t, k, now));
  }

  /** Displacing an empty entry changes no directory's reachability. */
  lemma ReachWithout(d: Graph, dirs: set<int>, k: Key, j: int)
    requires TreeShaped(d, dirs) && k in d && Empty(d, d[k]) && d[k] != j
    ensures Reaches(d, ROOT, j) <==> Reaches(d - {k}, ROOT, j)
  {
    forall p ensures Walk(d - {k}, ROOT, p) == Some(j) ==> Walk(d, ROOT, p) == Some(j) {
      if Walk(d - {k}, ROOT, p).Some? { WalkMonotone(d - {k}, d, ROOT, p); }
    }
    if Reaches(d, ROOT, j) {
      var p :| Walk(d, ROOT, p) == Some(j);
      forall r ensures Walk(d, d[k], r) != Some(j) { LeafWalk(d, d[k], r); }
      assert Walk(d - {k}, ROOT, p) == Some(j) by {
        if Reaches(d, ROOT, k.0) {
          var q :| Walk(d, ROOT, q) == Some(k.0);
          WalkWithout(d, dirs, k, q, p);
          if q + [k.1] <= p {
            BelowLeaf(d, p, q, k);
            WalkSnoc(d, ROOT, q, k.1);
          }
        } else {
          WalkWithoutDetached(d, k, p);
        }
      }
    }
  }

  /** The displacement is always announced in step; what is left is the move. */
  lemma ClearedInStep(t: Tables, k: Key, k': Key, now: Time)
    requires Sound(t) && Renames(t, k, k')
    ensures var t1 := Cleared(t, k', now);
            && InStep(t, t1)
            && (Reaches(t1.dentry, ROOT, k.0) <==> Reaches(t.dentry, ROOT, k.0))
            && (Reaches(t1.dentry, ROOT, k'.0) <==> Reaches(t.dentry, ROOT, k'.0))
  {
    if k' in t.dentry {
      if !IsDir(t.inode, t.dentry[k']) { assert Empty(t.dentry, t.dentry[k']); }
      DisplaceInStep(t, k', now);
      ClearedKeeps(t, k, k', now);
      ReachWithout(t.dentry, Dirs(t.inode), k', k.0);
      ReachWithout(t.dentry, Dirs(t.inode), k', k'.0);
    } else {
      SameDentryInStep(t, t);
    }
  }

  lemma MovableWhenReady(t: Tables, k: Key, k': Key)
    requires Sound(t) && k in t.dentry && k' !in t.dentry && IsDir(t.inode, k'.0)
    requires IsDir(t.inode, t.dentry[k]) ==> !Reaches(t.dentry, t.dentry[k], k'.0)
    ensures Movable(t.dentry, Dirs(t.inode), k, k')
  {
    MoveKeepsShape(t.dentry, Dirs(t.inode), k, k');
    if !IsDir(t.inode, t.dentry[k]) {
      forall p ensures Walk(t.dentry, t.dentry[k], p) != Some(k'.0) { LeafWalk(t.dentry, t.dentry[k], p); }
    }
  }

  lemma RenameInStep(t: Tables, k: Key, k': Key, now: Time)
    requires Sound(t)
    ensures var t' := RenameNode(t, k.0, k.1, k'.0, k'.1, now).tables;
            && t.feed <= t'.feed
            && (InStep(t, t') <==>
                !(Renames(t, k, k') && (Reaches(t.dentry, ROOT, k.0) <==> !Reaches(t.dentry, ROOT, k'.0))))
  {
    RenameCases(t, k, k', now);
    if Renames(t, k, k') {
      var t1 := Cleared(t, k', now);
      var t2 := Move(t1, k, k', now);
      ClearedReady(t, k, k', now);
      ClearedInStep(t, k, k', now);
      MovableWhenReady(t1, k, k');
      MoveFields(t1, k, k', now);
      MoveRowExactly(t1, Dirs(t1.inode), k, k', t2);
      InStepCompose(t, t1, t2);
    } else {
      SameDentryInStep(t, t);
    }
  }

  lemma TouchInStep(t: Tables, p: Path, atime: Time, mtime: Time, now: Time)
    requires Sound(t)
    ensures InStep(t, Touch(t, p, atime, mtime, now).tables)
  {
    var t' := Touch(t, p, atime, mtime, now).tables;
    if Resolve(t, ROOT, p).Missing? && t' != t {
      var k := TouchCreates(t, p, atime, mtime, now);
      FreshInStep(t, k, t');
    } else {
      SameDentryInStep(t, t');
    }
  }

  lemma CreateInStep(t: Tables, kind: Kind, parent: int, name: string,
                     mode: int, uid: int, gid: int, rdev: int, now: Time)
    requires Sound(t)
    ensures InStep(t, CreateNode(t, kind, parent, name, mode, uid, gid, rdev, now).tables)
  {
    var t' := CreateNode(t, kind, parent, name, mode, uid, gid, rdev, now).tables;
    CreateNodeFields(t, kind, parent, name, mode, uid, gid, rdev, now);
    if t' != t { FreshInStep(t, (parent, name), t'); } else { SameDentryInStep(t, t'); }
  }

  lemma LinkInStep(t: Tables, source: int, parent: int, name: string, now: Time)
    requires Sound(t)
    ensures InStep(t, Link(t, source, parent, name, now).tables)
  {
    var t' := Link(t, source, parent, name, now).tables;
    if t' != t { AddLinkInStep(t, source, (parent, name), now); } else { SameDentryInStep(t, t'); }
  }

  lemma LinkPathInStep(t: Tables, existing: Path, p: Path, now: Time)
    requires Sound(t)
    ensures InStep(t, LinkPath(t, existing, p, now).tables)
  {
    var t' := LinkPath(t, existing, p, now).tables;
    if t' != t {
      AddLinkInStep(t, Resolve(t, ROOT, existing).ino, (ResolveParent(t, p).ino, p[|p| - 1]), now);
    } else {
      SameDentryInStep(t, t');
    }
  }

  lemma DataInStep(t: Tables, op: Op)
    requires op.OpPwrite? || op.OpTruncate? || op.OpPin? || op.OpUnpin?
    ensures InStep(t, Apply(t, op).tables)
  {
    SameDentryInStep(t, Apply(t, op).tables);
  }

  /** For every operation, replaying its events over the live paths gives the new
      live paths exactly when it does not cross reachability. */
  lemma ApplyInStep(t: Tables, op: Op)
    requires Sound(t)
    ensures t.feed <= Apply(t, op).tables.feed
    ensures InStep(t, Apply(t, op).tables) <==> !CrossesReach(t, op)
  {
    match op
    case OpCreate(kind, parent, name, mode, uid, gid, rdev, now) =>
      CreateInStep(t, kind, parent, name, mode, uid, gid, rdev, now);
    case OpLink(source, parent, name, now) => LinkInStep(t, source, parent, name, now);
    case OpRename(op_, on, np, nn, now) => RenameInStep(t, (op_, on), (np, nn), now);
    case OpTouch(p, atime, mtime, now) => TouchInStep(t, p, atime, mtime, now);
    case OpLinkPath(existing, p, now) => LinkPathInStep(t, existing, p, now);
    case OpPwrite(_, _, _, _, _) => DataInStep(t, op);
    case OpTruncate(_, _, _, _) => DataInStep(t, op);
    case OpPin(_, _, _) => DataInStep(t, op);
    case OpUnpin(_, _, _) => DataInStep(t, op);
  }

  // --- Runs --------------------------------------------------------------------------

  /** When no detached directory holds a row, every linked directory is live. */
  lemma {:induction false} LinkedIsLive(d: Graph, dirs: set<int>, i: int)
    requires TreeShaped(d, dirs) && DetachedEmpty(d) && LinkedDir(d, i)
    ensures Reaches(d, ROOT, i)
    decreases d.Keys - RowsBelow(d, i)
  {
    if i == ROOT {
      assert Walk(d, ROOT, []) == Some(ROOT);
    } else {
      var k :| k in d && d[k] == i;
      assert LinkedDir(d, k.0);
      LinkedBelow(d, k);
      LinkedIsLive(d, dirs, k.0);
      var q :| Walk(d, ROOT, q) == Some(k.0);
      WalkSnoc(d, ROOT, q, k.1);
    }
  }

  ghost function RowsBelow(d: Graph, i: int): set<Key> { set r | r in d && Reaches(d, i, r.0) }

  /** One step up reaches strictly more rows. */
  lemma LinkedBelow(d: Graph, k: Key)
    requires Acyclic(d) && k in d
    ensures d.Keys - RowsBelow(d, k.0) < d.Keys - RowsBelow(d, d[k])
  {
    forall r | r in RowsBelow(d, d[k]) ensures r in RowsBelow(d, k.0) {
      var p :| Walk(d, d[k], p) == Some(r.0);
      WalkSnoc(d, k.0, [], k.1);
      assert [] + [k.1] == [k.1];
      WalkAppend(d, k.0, [k.1], p);
    }
    assert Walk(d, k.0, []) == Some(k.0);
    OldParentNotBelow(d, k);
    assert k in RowsBelow(d, k.0) && k !in RowsBelow(d, d[k]);
  }

  lemma {:induction false} RunInStep(t: Tables, ops: seq<Op>)
    requires Tidy(t) && CarefulRun(t, ops)
    ensures InStep(t, Run(t, ops))
    decreases |ops|
  {
    if ops == [] {
      SameDentryInStep(t, t);
    } else {
      var t1 := Apply(t, ops[0]).tables;
      CarefulApply(t, ops[0]);
      CarefulDoesNotCross(t, ops[0]);
      ApplyInStep(t, ops[0]);
      RunInStep(t1, ops[1..]);
      InStepCompose(t, t1, Run(t, ops));
    }
  }

  lemma CarefulDoesNotCross(t: Tables, op: Op)
    requires Tidy(t) && Careful(t, op)
    ensures !CrossesReach(t, op)
  {
    if op.OpRename? {
      LinkedIsLive(t.dentry, Dirs(t.inode), op.oldParent);
      LinkedIsLive(t.dentry, Dirs(t.inode), op.newParent);
    }
  }

  /** Every run of careful calls on a fresh volume: a reader that starts with no
      paths and replays the whole feed holds exactly the live paths. */
  lemma FeedRebuildsNamespace(now: Time, quotaBytes: Option<int>, quotaInodes: Option<int>, ops: seq<Op>)
    requires CarefulRun(Seed(now, quotaBytes, quotaInodes), ops)
    ensures var t := Run(Seed(now, quotaBytes, quotaInodes), ops);
            Replay(iset{}, t.feed) == Live(t.dentry)
  {
    var t0 := Seed(now, quotaBytes, quotaInodes);
    SeedTidy(now, quotaBytes, quotaInodes);
    RunInStep(t0, ops);
    forall p | p != [] ensures Walk(t0.dentry, ROOT, p) == None { LeafWalk(t0.dentry, ROOT, p); }
    assert Live(t0.dentry) == iset{};
    assert News(t0, Run(t0, ops)) == Run(t0, ops).feed;
  }
}
