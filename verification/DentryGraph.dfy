/** The directory graph held in fs_dentry: rows (parent, name) -> child.
    Walking names downwards, climbing towards the root the way the change-feed
    triggers do, and collecting ancestors the way the rename cycle check does. */
module DentryGraph {
  import opened Wrappers

  type Key = (int, string)
  type Path = seq<string>
  type Graph = map<Key, int>

  const ROOT := 1

  /** The inode reached from `i` by following the names of `p`, if every row exists. */
  ghost function Walk(d: Graph, i: int, p: Path): Option<int> {
    if p == [] then Some(i)
    else
      match Walk(d, i, p[..|p| - 1])
      case None => None
      case Some(j) => if (j, p[|p| - 1]) in d then Some(d[(j, p[|p| - 1])]) else None
  }

  /** The root-reachable paths: every way to name an entry from inode 1. */
  ghost function Live(d: Graph): iset<Path> {
    iset p: Path | p != [] && Walk(d, ROOT, p).Some?
  }

  ghost predicate Reaches(d: Graph, i: int, j: int) {
    exists p :: Walk(d, i, p) == Some(j)
  }

  ghost predicate Acyclic(d: Graph) {
    forall i, p | p != [] :: Walk(d, i, p) != Some(i)
  }

  ghost predicate RootHasNoParent(d: Graph) {
    forall k | k in d :: d[k] != ROOT
  }

  /** Every inode that is the parent of some row is in `dirs`. */
  ghost predicate ParentsIn(d: Graph, dirs: set<int>) {
    forall k | k in d :: k.0 in dirs
  }

  /** A member of `dirs` is named by at most one row. */
  ghost predicate OneRowEach(d: Graph, dirs: set<int>) {
    forall k, k' | k in d && k' in d && d[k] == d[k'] && d[k] in dirs :: k == k'
  }

  /** What every reachable volume's directory graph looks like. */
  ghost predicate TreeShaped(d: Graph, dirs: set<int>) {
    && RootHasNoParent(d)
    && ParentsIn(d, dirs)
    && OneRowEach(d, dirs)
    && Acyclic(d)
  }

  // --- Walking -------------------------------------------------------------

  lemma WalkSnoc(d: Graph, i: int, p: Path, n: string)
    ensures Walk(d, i, p + [n]) ==
            (match Walk(d, i, p)
             case None => None
             case Some(j) => if (j, n) in d then Some(d[(j, n)]) else None)
  {
    assert (p + [n])[..|p|] == p;
  }

  lemma {:induction false} WalkAppend(d: Graph, i: int, p: Path, q: Path)
    ensures Walk(d, i, p + q) ==
            (match Walk(d, i, p) case None => None case Some(j) => Walk(d, j, q))
    decreases |q|
  {
    if q == [] {
      assert p + q == p;
    } else {
      var q' := q[..|q| - 1];
      WalkAppend(d, i, p, q');
      assert p + q == (p + q') + [q[|q| - 1]];
      WalkSnoc(d, i, p + q', q[|q| - 1]);
      match Walk(d, i, p)
      case None =>
      case Some(j) => assert q == q' + [q[|q| - 1]]; WalkSnoc(d, j, q', q[|q| - 1]);
    }
  }

  /** Removing rows never creates a walk. */
  lemma {:induction false} WalkMonotone(d: Graph, e: Graph, i: int, p: Path)
    requires forall k | k in d :: k in e && e[k] == d[k]
    requires Walk(d, i, p).Some?
    ensures Walk(e, i, p) == Walk(d, i, p)
    decreases |p|
  {
    if p != [] { WalkMonotone(d, e, i, p[..|p| - 1]); }
  }

  lemma SubgraphTreeShaped(d: Graph, e: Graph, dirs: set<int>)
    requires TreeShaped(e, dirs)
    requires forall k | k in d :: k in e && e[k] == d[k]
    ensures TreeShaped(d, dirs)
  {
    forall i, p | p != [] ensures Walk(d, i, p) != Some(i) {
      if Walk(d, i, p) == Some(i) { WalkMonotone(d, e, i, p); }
    }
  }

  /** A directory has at most one path from the root, and the root only the empty one. */
  lemma {:induction false} UniquePath(d: Graph, dirs: set<int>, p: Path, q: Path, j: int)
    requires RootHasNoParent(d) && ParentsIn(d, dirs) && OneRowEach(d, dirs)
    requires j in dirs
    requires Walk(d, ROOT, p) == Some(j) && Walk(d, ROOT, q) == Some(j)
    ensures p == q
    decreases |p|
  {
    if p == [] || q == [] {
    } else {
      var a, b := Walk(d, ROOT, p[..|p| - 1]).value, Walk(d, ROOT, q[..|q| - 1]).value;
      assert (a, p[|p| - 1]) == (b, q[|q| - 1]);
      UniquePath(d, dirs, p[..|p| - 1], q[..|q| - 1], a);
      assert p == p[..|p| - 1] + [p[|p| - 1]] && q == q[..|q| - 1] + [q[|q| - 1]];
    }
  }

  // --- Climbing to the root: the recursive path query -----------------------

  /** The trigger's recursive query, started at directory `i` with the names
      gathered so far. It stops at inode 1 and yields nothing when no row names
      the directory it has climbed to. A row is dropped once it is used; on an
      acyclic graph it can never be needed again, which PathExprFindsPath shows. */
  ghost function PathExpr(d: Graph, i: int, suffix: Path): Option<Path>
    decreases |d|
  {
    if i == ROOT then Some(suffix)
    else if exists k :: k in d && d[k] == i then
      var k :| k in d && d[k] == i;
      PathExpr(d - {k}, k.0, [k.1] + suffix)
    else None
  }

  /** On a tree-shaped graph the climb yields the one path of `i`. */
  lemma {:induction false} PathExprFindsPath(d: Graph, dirs: set<int>, i: int, suffix: Path, q: Path)
    requires TreeShaped(d, dirs) && i in dirs
    requires Walk(d, ROOT, q) == Some(i)
    ensures PathExpr(d, i, suffix) == Some(q + suffix)
    decreases |d|
  {
    if i == ROOT {
      assert Walk(d, ROOT, []) == Some(i);
      UniquePath(d, dirs, q, [], i);
      assert [] + suffix == suffix;
    } else {
      var q', n := q[..|q| - 1], q[|q| - 1];
      assert q == q' + [n];
      var k := (Walk(d, ROOT, q').value, n);
      assert k in d && d[k] == i;
      SubgraphTreeShaped(d - {k}, d, dirs);
      WalkAvoids(d, k, q');
      PathExprFindsPath(d - {k}, dirs, k.0, [k.1] + suffix, q');
      assert q + suffix == q' + ([k.1] + suffix);
    }
  }

  /** ... and yields nothing when `i` is not root-reachable. */
  lemma {:induction false} PathExprDetached(d: Graph, i: int, suffix: Path)
    requires !Reaches(d, ROOT, i)
    ensures PathExpr(d, i, suffix) == None
    decreases |d|
  {
    assert Walk(d, ROOT, []) == Some(ROOT);
    if exists k :: k in d && d[k] == i {
      var k :| k in d && d[k] == i && PathExpr(d, i, suffix) == PathExpr(d - {k}, k.0, [k.1] + suffix);
      if Reaches(d - {k}, ROOT, k.0) {
        var q :| Walk(d - {k}, ROOT, q) == Some(k.0);
        WalkMonotone(d - {k}, d, ROOT, q);
        WalkSnoc(d, ROOT, q, k.1);
        assert false;
      }
      PathExprDetached(d - {k}, k.0, [k.1] + suffix);
    }
  }

  /** On an acyclic graph, no walk from the root to a row's parent uses that row. */
  lemma WalkAvoids(d: Graph, k: Key, q: Path)
    requires Acyclic(d) && k in d && Walk(d, ROOT, q) == Some(k.0)
    ensures Walk(d - {k}, ROOT, q) == Some(k.0)
  {
    WalkAvoidsPrefix(d, k, q, |q|);
    assert q[..|q|] == q;
  }

  lemma {:induction false} WalkAvoidsPrefix(d: Graph, k: Key, q: Path, n: nat)
    requires Acyclic(d) && k in d && Walk(d, ROOT, q) == Some(k.0) && n <= |q|
    ensures Walk(d - {k}, ROOT, q[..n]) == Walk(d, ROOT, q[..n])
    ensures Walk(d, ROOT, q[..n]).Some?
    decreases n
  {
    assert q == q[..n] + q[n..];
    WalkAppend(d, ROOT, q[..n], q[n..]);
    if n > 0 {
      WalkAvoidsPrefix(d, k, q, n - 1);
      assert q[..n] == q[..n - 1] + [q[n - 1]];
      WalkSnoc(d, ROOT, q[..n - 1], q[n - 1]);
      WalkSnoc(d - {k}, ROOT, q[..n - 1], q[n - 1]);
      var j := Walk(d, ROOT, q[..n - 1]).value;
      if (j, q[n - 1]) == k {
        // the remaining names would lead from the row's parent back to itself
        assert q == q[..n - 1] + q[n - 1..];
        WalkAppend(d, ROOT, q[..n - 1], q[n - 1..]);
        assert false;
      }
    }
  }

  // --- The rename cycle check ----------------------------------------------

  /** The recursive ancestor query with UNION: parents are added until none is new. */
  function Ancestors(d: Graph, seen: set<int>): set<int>
    decreases (set k | k in d :: k.0) - seen
  {
    var all := set k | k in d :: k.0;
    var parents := set k | k in d && d[k] in seen :: k.0;
    if parents - seen == {} then seen
    else
      QueryShrinks(all, seen, parents);
      Ancestors(d, seen + parents)
  }

  lemma QueryShrinks(all: set<int>, seen: set<int>, parents: set<int>)
    requires parents <= all && parents - seen != {}
    ensures all - (seen + parents) < all - seen
  {
    var x := Pick(parents - seen);
    assert x in all - seen;
  }

  /** The query finds `a` exactly when `a` is an ancestor of (or equal to) `b`. */
  lemma AncestorsExact(d: Graph, a: int, b: int)
    ensures a in Ancestors(d, {b}) <==> Reaches(d, a, b)
  {
    assert Walk(d, b, []) == Some(b);
    AncestorsSound(d, {b}, b);
    AncestorsClosed(d, {b});
    if Reaches(d, a, b) {
      var p :| Walk(d, a, p) == Some(b);
      ClosedHoldsAncestors(d, Ancestors(d, {b}), a, p, b);
    }
  }

  lemma {:induction false} AncestorsSound(d: Graph, seen: set<int>, b: int)
    requires forall x | x in seen :: Reaches(d, x, b)
    ensures forall x | x in Ancestors(d, seen) :: Reaches(d, x, b)
    decreases (set k | k in d :: k.0) - seen
  {
    var all := set k | k in d :: k.0;
    var parents := set k | k in d && d[k] in seen :: k.0;
    if parents - seen != {} {
      forall x | x in parents ensures Reaches(d, x, b) {
        var k :| k in d && d[k] in seen && k.0 == x;
        var p :| Walk(d, d[k], p) == Some(b);
        WalkSnoc(d, x, [], k.1);
        assert [] + [k.1] == [k.1];
        WalkAppend(d, x, [k.1], p);
        assert Walk(d, x, [k.1] + p) == Some(b);
      }
      QueryShrinks(all, seen, parents);
      AncestorsSound(d, seen + parents, b);
    }
  }

  lemma {:induction false} AncestorsClosed(d: Graph, seen: set<int>)
    ensures seen <= Ancestors(d, seen)
    ensures forall k | k in d && d[k] in Ancestors(d, seen) :: k.0 in Ancestors(d, seen)
    decreases (set k | k in d :: k.0) - seen
  {
    var all := set k | k in d :: k.0;
    var parents := set k | k in d && d[k] in seen :: k.0;
    if parents - seen == {} {
      forall k | k in d && d[k] in seen ensures k.0 in seen {
        assert k.0 in parents;
        assert k.0 !in parents - seen;
      }
    } else {
      QueryShrinks(all, seen, parents);
      AncestorsClosed(d, seen + parents);
    }
  }

  lemma {:induction false} ClosedHoldsAncestors(d: Graph, s: set<int>, a: int, p: Path, b: int)
    requires forall k | k in d && d[k] in s :: k.0 in s
    requires b in s && Walk(d, a, p) == Some(b)
    ensures a in s
    decreases |p|
  {
    if p != [] {
      var j := Walk(d, a, p[..|p| - 1]).value;
      assert (j, p[|p| - 1]) in d;
      ClosedHoldsAncestors(d, s, a, p[..|p| - 1], j);
    }
  }

  // --- What one row change does to the live paths ---------------------------

  /** Removing row `k` removes exactly the paths that go through it. */
  lemma {:induction false} WalkWithout(d: Graph, dirs: set<int>, k: Key, q: Path, p: Path)
    requires TreeShaped(d, dirs) && k in d
    requires Walk(d, ROOT, q) == Some(k.0)
    ensures Walk(d - {k}, ROOT, p) == if q + [k.1] <= p then None else Walk(d, ROOT, p)
    decreases |p|
  {
    if p != [] {
      var p', n := p[..|p| - 1], p[|p| - 1];
      assert p == p' + [n];
      WalkWithout(d, dirs, k, q, p');
      if q + [k.1] <= p && !(q + [k.1] <= p') {
        assert p == q + [k.1];
        assert p' == q;
      }
      if !(q + [k.1] <= p) && Walk(d, ROOT, p').Some? && (Walk(d, ROOT, p').value, n) == k {
        UniquePath(d, dirs, p', q, k.0);
        assert false;
      }
    }
  }

  /** Removing a row whose parent is not root-reachable changes no live path. */
  lemma {:induction false} WalkWithoutDetached(d: Graph, k: Key, p: Path)
    requires k in d && !Reaches(d, ROOT, k.0)
    ensures Walk(d - {k}, ROOT, p) == Walk(d, ROOT, p)
    decreases |p|
  {
    if p != [] { WalkWithoutDetached(d, k, p[..|p| - 1]); }
  }

  /** One name further down, below the new row. */
  lemma BelowNew(d: Graph, k: Key, c: int, q: Path, p: Path, n: string)
    requires k !in d && !Reaches(d, c, k.0) && q + [k.1] <= p
    requires Walk(d[k := c], ROOT, p) == Walk(d, c, p[|q| + 1..])
    ensures q + [k.1] <= p + [n] && Walk(d[k := c], ROOT, p + [n]) == Walk(d, c, (p + [n])[|q| + 1..])
  {
    var tail := p[|q| + 1..];
    assert (p + [n])[|q| + 1..] == tail + [n];
    WalkSnoc(d, c, tail, n);
    WalkSnoc(d[k := c], ROOT, p, n);
    assert Walk(d, c, tail) != Some(k.0);
  }

  /** Adding a row `k` to child `c`, where `k.0` is at path `q` and not below `c`:
      the new live paths are the old ones plus everything below `c`, renamed. */
  lemma {:induction false} WalkWith(d: Graph, dirs: set<int>, k: Key, c: int, q: Path, p: Path)
    requires RootHasNoParent(d) && ParentsIn(d, dirs) && OneRowEach(d, dirs)
    requires k !in d && k.0 in dirs && !Reaches(d, c, k.0)
    requires Walk(d, ROOT, q) == Some(k.0)
    ensures Walk(d[k := c], ROOT, p) ==
            if q + [k.1] <= p then Walk(d, c, p[|q| + 1..]) else Walk(d, ROOT, p)
    decreases |p|
  {
    if p == [] {
    } else {
      var p', n := p[..|p| - 1], p[|p| - 1];
      assert p == p' + [n];
      WalkWith(d, dirs, k, c, q, p');
      if q + [k.1] <= p' {
        BelowNew(d, k, c, q, p', n);
      } else if q + [k.1] <= p {
        assert p == q + [k.1] && p' == q;
        assert p[|q| + 1..] == [];
        WalkSnoc(d[k := c], ROOT, q, k.1);
      } else {
        BesideNew(d, dirs, k, c, q, p', n);
      }
    }
  }

  /** One name further down, elsewhere. */
  lemma BesideNew(d: Graph, dirs: set<int>, k: Key, c: int, q: Path, p: Path, n: string)
    requires RootHasNoParent(d) && ParentsIn(d, dirs) && OneRowEach(d, dirs) && k.0 in dirs
    requires Walk(d, ROOT, q) == Some(k.0) && p + [n] != q + [k.1]
    requires Walk(d[k := c], ROOT, p) == Walk(d, ROOT, p)
    ensures Walk(d[k := c], ROOT, p + [n]) == Walk(d, ROOT, p + [n])
  {
    WalkSnoc(d, ROOT, p, n);
    WalkSnoc(d[k := c], ROOT, p, n);
    if Walk(d, ROOT, p).Some? && (Walk(d, ROOT, p).value, n) == k {
      UniquePath(d, dirs, p, q, k.0);
      assert false;
    }
  }

  lemma {:induction false} WalkWithDetached(d: Graph, k: Key, c: int, p: Path)
    requires k !in d && !Reaches(d, ROOT, k.0)
    ensures Walk(d[k := c], ROOT, p) == Walk(d, ROOT, p)
    decreases |p|
  {
    if p != [] { WalkWithDetached(d, k, c, p[..|p| - 1]); }
  }

  /** Nothing lies below an inode that is no row's parent. */
  lemma {:induction false} LeafWalk(d: Graph, c: int, p: Path)
    requires forall k | k in d :: k.0 != c
    ensures p != [] ==> Walk(d, c, p) == None
    decreases |p|
  {
    if p != [] { LeafWalk(d, c, p[..|p| - 1]); }
  }

  /** Attaching `c` below `k.0` keeps the graph acyclic when `k.0` is not below `c`. */
  lemma AttachKeepsAcyclic(d: Graph, k: Key, c: int)
    requires Acyclic(d) && k !in d && !Reaches(d, c, k.0)
    ensures Acyclic(d[k := c])
  {
    var e := d[k := c];
    forall i, p | p != [] ensures Walk(e, i, p) != Some(i) {
      if Walk(e, i, p) == Some(i) {
        if Reaches(d, c, i) {
          AttachInside(d, k, c, i, p);
        } else {
          AttachOutside(d, k, c, i, p);
        }
        assert false;
      }
    }
  }

  lemma {:induction false} AttachInside(d: Graph, k: Key, c: int, i: int, p: Path)
    requires k !in d && !Reaches(d, c, k.0) && Reaches(d, c, i)
    ensures Walk(d[k := c], i, p) == Walk(d, i, p)
    ensures Walk(d, i, p).Some? ==> Reaches(d, c, Walk(d, i, p).value)
    decreases |p|
  {
    if p != [] {
      AttachInside(d, k, c, i, p[..|p| - 1]);
      if Walk(d, i, p).Some? {
        var q :| Walk(d, c, q) == Some(Walk(d, i, p[..|p| - 1]).value);
        WalkSnoc(d, c, q, p[|p| - 1]);
      }
    }
  }

  lemma {:induction false} AttachOutside(d: Graph, k: Key, c: int, i: int, p: Path)
    requires k !in d && !Reaches(d, c, k.0)
    requires Walk(d[k := c], i, p).Some? && !Reaches(d, c, Walk(d[k := c], i, p).value)
    ensures Walk(d, i, p) == Walk(d[k := c], i, p)
    decreases |p|
  {
    if p != [] {
      var e := d[k := c];
      var p', n := p[..|p| - 1], p[|p| - 1];
      var j := Walk(e, i, p').value;
      assert (j, n) in e;
      assert Walk(d, c, []) == Some(c);
      assert (j, n) != k;
      if Reaches(d, c, j) {
        var q :| Walk(d, c, q) == Some(j);
        WalkSnoc(d, c, q, n);
        assert false;
      }
      AttachOutside(d, k, c, i, p');
    }
  }
}
