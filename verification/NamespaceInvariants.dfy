/** What every operation keeps: the directory graph is a tree, no row dangles,
    link counts are the counts of rows, and nothing outlives its inode. */
module NamespaceInvariants {
  import opened Wrappers
  import opened DentryGraph
  import opened Tables

  // --- Counting rows ---------------------------------------------------------

  ghost function RowsOf(d: Graph, i: int): set<Key> { set k | k in d && d[k] == i }

  ghost function SubdirRows(d: Graph, dirs: set<int>, i: int): set<Key> {
    set k | k in d && k.0 == i && d[k] in dirs
  }

  ghost function Links(d: Graph, i: int): nat { |RowsOf(d, i)| }
  ghost function Subdirs(d: Graph, dirs: set<int>, i: int): nat { |SubdirRows(d, dirs, i)| }

  lemma LinksAttach(d: Graph, k: Key, c: int, i: int)
    requires k !in d
    ensures Links(d[k := c], i) == Links(d, i) + if c == i then 1 else 0
  {
    assert RowsOf(d[k := c], i) == RowsOf(d, i) + if c == i then {k} else {};
  }

  lemma LinksDetach(d: Graph, k: Key, i: int)
    requires k in d
    ensures Links(d - {k}, i) == Links(d, i) - if d[k] == i then 1 else 0
  {
    assert (d - {k})[k := d[k]] == d;
    LinksAttach(d - {k}, k, d[k], i);
  }

  lemma SubdirsAttach(d: Graph, dirs: set<int>, k: Key, c: int, i: int)
    requires k !in d
    ensures Subdirs(d[k := c], dirs, i) == Subdirs(d, dirs, i) + if k.0 == i && c in dirs then 1 else 0
  {
    assert SubdirRows(d[k := c], dirs, i) == SubdirRows(d, dirs, i) + if k.0 == i && c in dirs then {k} else {};
  }

  lemma SubdirsDetach(d: Graph, dirs: set<int>, k: Key, i: int)
    requires k in d
    ensures Subdirs(d - {k}, dirs, i) == Subdirs(d, dirs, i) - if k.0 == i && d[k] in dirs then 1 else 0
  {
    assert (d - {k})[k := d[k]] == d;
    SubdirsAttach(d - {k}, dirs, k, d[k], i);
  }

  lemma SubdirsSame(d: Graph, dirs: set<int>, dirs': set<int>, i: int)
    requires forall k | k in d :: d[k] in dirs <==> d[k] in dirs'
    ensures Subdirs(d, dirs, i) == Subdirs(d, dirs', i)
  {
    assert SubdirRows(d, dirs, i) == SubdirRows(d, dirs', i);
  }

  // --- The invariant -----------------------------------------------------------

  ghost predicate NoDangling(t: Tables) {
    forall k | k in t.dentry :: t.dentry[k] in t.inode
  }

  ghost predicate FileLinks(t: Tables) {
    forall i | i in t.inode && !IsDir(t.inode, i) :: t.inode[i].nlink == Links(t.dentry, i)
  }

  /** Nothing in fs_data, fs_symlink or fs_open_inode outlives its inode. */
  ghost predicate NoOrphans(t: Tables) {
    && (forall c | c in t.data :: c.0 in t.inode)
    && (forall i | i in t.symlink :: i in t.inode)
    && (forall l | l in t.leases :: l.1 in t.inode)
  }

  ghost predicate InodesAllocated(t: Tables) {
    && ROOT in t.inode
    && IsDir(t.inode, ROOT)
    && forall i | i in t.inode :: 0 < i < t.nextIno
  }

  ghost predicate Sound(t: Tables) {
    && InodesAllocated(t)
    && TreeShaped(t.dentry, Dirs(t.inode))
    && NoDangling(t)
    && FileLinks(t)
    && NoOrphans(t)
  }

  /** The links a directory has besides those of its subdirectories. */
  ghost function OwnLinks(d: Graph, i: int): int {
    if i == ROOT then 1 else if Links(d, i) > 0 then 2 else 0
  }

  ghost predicate DirLinks(t: Tables) {
    forall i | i in t.inode && IsDir(t.inode, i) ::
      t.inode[i].nlink == OwnLinks(t.dentry, i) + Subdirs(t.dentry, Dirs(t.inode), i)
  }

  // --- Attaching and detaching rows ---------------------------------------------

  lemma AttachLeaf(d: Graph, dirs: set<int>, k: Key, c: int)
    requires TreeShaped(d, dirs) && k !in d && k.0 in dirs
    requires forall r | r in d :: r.0 != c
    requires c != ROOT && c != k.0 && (c in dirs ==> forall r | r in d :: d[r] != c)
    ensures TreeShaped(d[k := c], dirs) && !Reaches(d, c, k.0)
  {
    forall p ensures Walk(d, c, p) != Some(k.0) { LeafWalk(d, c, p); }
    AttachKeepsAcyclic(d, k, c);
  }

  lemma MoveKeepsShape(d: Graph, dirs: set<int>, k: Key, k': Key)
    requires TreeShaped(d, dirs) && k in d && k'.0 in dirs && k' !in d
    requires d[k] in dirs ==> !Reaches(d, d[k], k'.0)
    ensures TreeShaped((d - {k})[k' := d[k]], dirs)
    ensures !Reaches(d - {k}, d[k], k'.0)
  {
    var c, e := d[k], d - {k};
    SubgraphTreeShaped(e, d, dirs);
    forall p ensures Walk(e, c, p) != Some(k'.0) {
      if c in dirs {
        if Walk(e, c, p) == Some(k'.0) { WalkMonotone(e, d, c, p); }
      } else {
        LeafWalk(e, c, p);
      }
    }
    AttachKeepsAcyclic(e, k', c);
    assert c in dirs ==> forall x | x in e :: e[x] != c;
  }

  // --- create_node and touch: a fresh inode -------------------------------------

  /** The state after a fresh inode got its one row, up to its parent's columns. */
  lemma FreshNodeSound(t: Tables, k: Key, node: Inode, t': Tables)
    requires Sound(t) && k !in t.dentry && IsDir(t.inode, k.0)
    requires t'.dentry == t.dentry[k := t.nextIno]
    requires t'.inode.Keys == t.inode.Keys + {t.nextIno} && t'.nextIno == t.nextIno + 1
    requires t'.inode[t.nextIno].mode == node.mode
    requires !IsDirMode(node.mode) ==> t'.inode[t.nextIno].nlink == 1
    requires forall i | i in t.inode :: t'.inode[i].mode == t.inode[i].mode
    requires forall i | i in t.inode && i != k.0 :: t'.inode[i].nlink == t.inode[i].nlink
    requires t'.data == t.data && t'.leases == t.leases
    requires forall i | i in t'.symlink :: i in t.symlink || i == t.nextIno
    ensures Sound(t')
  {
    var c, dirs, dirs' := t.nextIno, Dirs(t.inode), Dirs(t'.inode);
    assert c !in t.inode;
    assert TreeShaped(t.dentry, dirs') by {
      assert forall i | i in t.inode :: i in dirs <==> i in dirs';
    }
    AttachLeaf(t.dentry, dirs', k, c);
    forall i | i in t'.inode && !IsDir(t'.inode, i) ensures t'.inode[i].nlink == Links(t'.dentry, i) {
      LinksAttach(t.dentry, k, c, i);
      if i == c { assert RowsOf(t.dentry, c) == {}; }
    }
  }

  lemma FreshNodeDirLinks(t: Tables, k: Key, node: Inode, t': Tables)
    requires Sound(t) && DirLinks(t) && k !in t.dentry && IsDir(t.inode, k.0)
    requires t'.dentry == t.dentry[k := t.nextIno]
    requires t'.inode.Keys == t.inode.Keys + {t.nextIno}
    requires t'.inode[t.nextIno].mode == node.mode
    requires forall i | i in t.inode :: t'.inode[i].mode == t.inode[i].mode
    requires forall i | i in t.inode :: t'.inode[i].nlink == t.inode[i].nlink
                                       + if i == k.0 && IsDirMode(node.mode) then 1 else 0
    requires IsDirMode(node.mode) ==> t'.inode[t.nextIno].nlink == 2
    ensures DirLinks(t')
  {
    var c, dirs, dirs' := t.nextIno, Dirs(t.inode), Dirs(t'.inode);
    assert c !in t.inode;
    forall i | i in t'.inode && IsDir(t'.inode, i)
      ensures t'.inode[i].nlink == OwnLinks(t'.dentry, i) + Subdirs(t'.dentry, dirs', i)
    {
      LinksAttach(t.dentry, k, c, i);
      SubdirsAttach(t.dentry, dirs', k, c, i);
      SubdirsSame(t.dentry, dirs, dirs', i);
      if i == c {
        assert RowsOf(t.dentry, c) == {};
        assert SubdirRows(t.dentry, dirs', c) == {};
      }
    }
  }

  // --- link: a second row for a file ----------------------------------------------

  lemma SameDirs(a: map<int, Inode>, b: map<int, Inode>)
    requires a.Keys == b.Keys && forall i | i in a :: a[i].mode == b[i].mode
    ensures Dirs(a) == Dirs(b)
  {
    forall i ensures i in Dirs(a) <==> i in Dirs(b) {
      assert i in a <==> i in b;
    }
  }

  /** Two states with the same inodes and modes: what is left to show is the counts. */
  lemma SoundFromCounts(t: Tables, t': Tables)
    requires Sound(t) && t'.inode.Keys == t.inode.Keys && t'.nextIno == t.nextIno
    requires forall i | i in t.inode :: t'.inode[i].mode == t.inode[i].mode
    requires t'.data == t.data && t'.symlink == t.symlink && t'.leases == t.leases
    requires TreeShaped(t'.dentry, Dirs(t.inode)) && NoDangling(t')
    requires forall i | i in t.inode && !IsDir(t.inode, i) ::
               t'.inode[i].nlink - t.inode[i].nlink == Links(t'.dentry, i) - Links(t.dentry, i)
    ensures Sound(t') && Dirs(t'.inode) == Dirs(t.inode)
  {
    SameDirs(t.inode, t'.inode);
  }

  lemma AddLinkFields(t: Tables, source: int, k: Key, now: Time)
    requires k.0 in t.inode && source in t.inode && source != k.0
    ensures var t' := AddLink(t, source, k, now);
            && t'.dentry == t.dentry[k := source]
            && t' == t.(dentry := t'.dentry, inode := t'.inode, feed := t'.feed)
            && t'.inode.Keys == t.inode.Keys
            && forall i | i in t.inode :: && t'.inode[i].mode == t.inode[i].mode
                                          && t'.inode[i].size == t.inode[i].size
                                          && t'.inode[i].nlink == t.inode[i].nlink + if i == source then 1 else 0
  {
  }

  lemma AddLinkSound(t: Tables, source: int, k: Key, now: Time)
    requires Sound(t) && k !in t.dentry && IsDir(t.inode, k.0)
    requires source in t.inode && !IsDir(t.inode, source)
    ensures Sound(AddLink(t, source, k, now))
  {
    var t' := AddLink(t, source, k, now);
    AddLinkFields(t, source, k, now);
    AttachLeaf(t.dentry, Dirs(t.inode), k, source);
    forall i | i in t.inode ensures Links(t'.dentry, i) == Links(t.dentry, i) + if source == i then 1 else 0 {
      LinksAttach(t.dentry, k, source, i);
    }
    SoundFromCounts(t, t');
  }

  lemma AddLinkDirLinks(t: Tables, source: int, k: Key, now: Time)
    requires Sound(t) && DirLinks(t) && k !in t.dentry && IsDir(t.inode, k.0)
    requires source in t.inode && !IsDir(t.inode, source)
    ensures DirLinks(AddLink(t, source, k, now))
  {
    var t' := AddLink(t, source, k, now);
    AddLinkFields(t, source, k, now);
    SameDirs(t.inode, t'.inode);
    forall i | i in t'.inode && IsDir(t'.inode, i)
      ensures t'.inode[i].nlink == OwnLinks(t'.dentry, i) + Subdirs(t'.dentry, Dirs(t'.inode), i)
    {
      LinksAttach(t.dentry, k, source, i);
      SubdirsAttach(t.dentry, Dirs(t.inode), k, source, i);
    }
  }

  // --- rename -----------------------------------------------------------------------

  ghost predicate Empty(d: Graph, i: int) { forall k | k in d :: k.0 != i }

  /** Displace before it decides whether to delete the destination inode. */
  ghost function Unlinked(t: Tables, k: Key, now: Time): Tables
    requires k in t.dentry && t.dentry[k] in t.inode
  {
    var dst, t1 := t.dentry[k], DeleteRow(t, k);
    t1.(inode := if IsDir(t.inode, dst)
                 then Chlink(t1.inode[dst := t1.inode[dst].(nlink := 0, ctime := now)], k.0, -1)
                 else Chctime(Chlink(t1.inode, dst, -1), dst, now))
  }

  lemma UnlinkedFields(t: Tables, k: Key, now: Time)
    requires k in t.dentry && t.dentry[k] in t.inode && k.0 in t.inode && k.0 != t.dentry[k]
    ensures var t', dst := Unlinked(t, k, now), t.dentry[k];
            && t'.dentry == t.dentry - {k}
            && t' == t.(dentry := t'.dentry, inode := t'.inode, feed := t'.feed)
            && t'.inode.Keys == t.inode.Keys
            && (forall i | i in t.inode :: t'.inode[i].mode == t.inode[i].mode && t'.inode[i].size == t.inode[i].size)
            && (forall i | i in t.inode && i != dst ::
                  t'.inode[i].nlink == t.inode[i].nlink - if i == k.0 && IsDir(t.inode, dst) then 1 else 0)
            && t'.inode[dst].nlink == if IsDir(t.inode, dst) then 0 else t.inode[dst].nlink - 1
    ensures Displace(t, k, now) ==
            if Unlinked(t, k, now).inode[t.dentry[k]].nlink == 0 && !Leased(t.leases, t.dentry[k], now)
            then DeleteInode(Unlinked(t, k, now), t.dentry[k]) else Unlinked(t, k, now)
  {
  }

  lemma RowNotLoop(t: Tables, k: Key)
    requires Sound(t) && k in t.dentry
    ensures k.0 != t.dentry[k]
  {
    assert Walk(t.dentry, k.0, []) == Some(k.0);
    WalkSnoc(t.dentry, k.0, [], k.1);
    assert [] + [k.1] == [k.1];
  }

  lemma UnlinkedSound(t: Tables, k: Key, now: Time)
    requires Sound(t) && k in t.dentry && IsDir(t.inode, k.0)
    ensures Sound(Unlinked(t, k, now))
  {
    var d := t.dentry - {k};
    RowNotLoop(t, k);
    UnlinkedFields(t, k, now);
    SubgraphTreeShaped(d, t.dentry, Dirs(t.inode));
    forall i | i in t.inode ensures Links(d, i) == Links(t.dentry, i) - if t.dentry[k] == i then 1 else 0 {
      LinksDetach(t.dentry, k, i);
    }
    SoundFromCounts(t, Unlinked(t, k, now));
  }

  /** A destination left with no links is named by no row. */
  lemma UnlinkedUnnamed(t: Tables, k: Key, now: Time)
    requires Sound(t) && k in t.dentry && IsDir(t.inode, k.0)
    requires Unlinked(t, k, now).inode[t.dentry[k]].nlink == 0
    ensures forall r | r in t.dentry - {k} :: t.dentry[r] != t.dentry[k]
  {
    var dst, d := t.dentry[k], t.dentry - {k};
    RowNotLoop(t, k);
    UnlinkedFields(t, k, now);
    if !IsDir(t.inode, dst) {
      LinksDetach(t.dentry, k, dst);
      assert RowsOf(d, dst) == {};
      assert forall r | r in d :: d[r] == dst ==> r in RowsOf(d, dst);
    }
  }

  lemma UnlinkedDirLinks(t: Tables, k: Key, now: Time)
    requires Sound(t) && DirLinks(t) && k in t.dentry && IsDir(t.inode, k.0)
    requires Empty(t.dentry, t.dentry[k])
    ensures DirLinks(Unlinked(t, k, now))
  {
    var t', dst, d := Unlinked(t, k, now), t.dentry[k], t.dentry - {k};
    RowNotLoop(t, k);
    UnlinkedFields(t, k, now);
    SameDirs(t.inode, t'.inode);
    forall i | i in t'.inode && IsDir(t'.inode, i)
      ensures t'.inode[i].nlink == OwnLinks(d, i) + Subdirs(d, Dirs(t.inode), i)
    {
      UnlinkedCounts(t, k, i);
    }
  }

  lemma UnlinkedCounts(t: Tables, k: Key, i: int)
    requires Sound(t) && k in t.dentry && i in t.inode && IsDir(t.inode, i)
    requires Empty(t.dentry, t.dentry[k]) && k.0 != t.dentry[k]
    ensures var d, dirs := t.dentry - {k}, Dirs(t.inode);
            if i == t.dentry[k] then OwnLinks(d, i) == 0 && Subdirs(d, dirs, i) == 0
            else && OwnLinks(d, i) == OwnLinks(t.dentry, i)
                 && Subdirs(d, dirs, i) == Subdirs(t.dentry, dirs, i) - if k.0 == i && t.dentry[k] in dirs then 1 else 0
  {
    LinksDetach(t.dentry, k, i);
    SubdirsDetach(t.dentry, Dirs(t.inode), k, i);
    if i == t.dentry[k] {
      assert SubdirRows(t.dentry, Dirs(t.inode), i) == {};
      assert RowsOf(t.dentry, i) == {k};
    }
  }

  /** Deleting an inode no row names and that names no row. */
  lemma DeleteInodeSound(t: Tables, i: int)
    requires Sound(t) && i in t.inode && i != ROOT && Empty(t.dentry, i)
    requires forall k | k in t.dentry :: t.dentry[k] != i
    ensures Sound(DeleteInode(t, i))
    ensures DirLinks(t) ==> DirLinks(DeleteInode(t, i))
  {
    var t' := DeleteInode(t, i);
    forall j | j in t'.inode ensures Subdirs(t.dentry, Dirs(t'.inode), j) == Subdirs(t.dentry, Dirs(t.inode), j) {
      SubdirsSame(t.dentry, Dirs(t'.inode), Dirs(t.inode), j);
    }
  }

  lemma DisplaceSound(t: Tables, k: Key, now: Time)
    requires Sound(t) && k in t.dentry && IsDir(t.inode, k.0)
    requires Empty(t.dentry, t.dentry[k])
    ensures Sound(Displace(t, k, now))
    ensures DirLinks(t) ==> DirLinks(Displace(t, k, now))
  {
    RowNotLoop(t, k);
    UnlinkedFields(t, k, now);
    UnlinkedSound(t, k, now);
    if DirLinks(t) { UnlinkedDirLinks(t, k, now); }
    var t', dst := Unlinked(t, k, now), t.dentry[k];
    if t'.inode[dst].nlink == 0 && !Leased(t.leases, dst, now) {
      UnlinkedUnnamed(t, k, now);
      DeleteInodeSound(t', dst);
    }
  }

  lemma MoveFields(t: Tables, k: Key, k': Key, now: Time)
    requires k in t.dentry && k.0 in t.inode && k'.0 in t.inode && t.dentry[k] in t.inode
    ensures var t', dir := Move(t, k, k', now), IsDir(t.inode, t.dentry[k]);
            && t'.dentry == (t.dentry - {k})[k' := t.dentry[k]]
            && t' == t.(dentry := t'.dentry, inode := t'.inode, feed := t'.feed)
            && t'.inode.Keys == t.inode.Keys
            && (forall i | i in t.inode :: t'.inode[i].mode == t.inode[i].mode && t'.inode[i].size == t.inode[i].size)
            && (forall i | i in t.inode ::
                  t'.inode[i].nlink == t.inode[i].nlink
                    - (if dir && i == k.0 then 1 else 0) + (if dir && i == k'.0 then 1 else 0))
  {
  }

  lemma MoveSound(t: Tables, k: Key, k': Key, now: Time)
    requires Sound(t) && k in t.dentry && k' !in t.dentry
    requires IsDir(t.inode, k.0) && IsDir(t.inode, k'.0)
    requires IsDir(t.inode, t.dentry[k]) ==> !Reaches(t.dentry, t.dentry[k], k'.0)
    ensures Sound(Move(t, k, k', now))
  {
    var t', e := Move(t, k, k', now), t.dentry - {k};
    MoveFields(t, k, k', now);
    MoveKeepsShape(t.dentry, Dirs(t.inode), k, k');
    forall i | i in t.inode ensures Links(t'.dentry, i) == Links(t.dentry, i) {
      MoveCounts(t.dentry, Dirs(t.inode), k, k', i);
    }
    SoundFromCounts(t, t');
  }

  lemma MoveDirLinks(t: Tables, k: Key, k': Key, now: Time)
    requires Sound(t) && DirLinks(t) && k in t.dentry && k' !in t.dentry
    requires IsDir(t.inode, k.0) && IsDir(t.inode, k'.0)
    ensures DirLinks(Move(t, k, k', now))
  {
    var t', e, src, dirs := Move(t, k, k', now), t.dentry - {k}, t.dentry[k], Dirs(t.inode);
    MoveFields(t, k, k', now);
    SameDirs(t.inode, t'.inode);
    forall i | i in t'.inode && IsDir(t'.inode, i)
      ensures t'.inode[i].nlink == OwnLinks(t'.dentry, i) + Subdirs(t'.dentry, dirs, i)
    {
      MoveCounts(t.dentry, dirs, k, k', i);
    }
  }

  lemma MoveCounts(d: Graph, dirs: set<int>, k: Key, k': Key, i: int)
    requires k in d && k' !in d
    ensures var e := (d - {k})[k' := d[k]];
            && Links(e, i) == Links(d, i)
            && OwnLinks(e, i) == OwnLinks(d, i)
            && Subdirs(e, dirs, i) == Subdirs(d, dirs, i)
                 - (if k.0 == i && d[k] in dirs then 1 else 0) + (if k'.0 == i && d[k] in dirs then 1 else 0)
  {
    LinksDetach(d, k, i);
    LinksAttach(d - {k}, k', d[k], i);
    SubdirsDetach(d, dirs, k, i);
    SubdirsAttach(d - {k}, dirs, k', d[k], i);
  }
}
