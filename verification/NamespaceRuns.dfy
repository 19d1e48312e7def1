/** Whole runs from the seeded root: soundness, link counts, quotas, and
    refused operations that change nothing. */
module NamespaceRuns {
  import opened Wrappers
  import opened DentryGraph
  import opened Totals
  import opened Tables
  import opened NamespaceInvariants

  predicate Succeeded(o: Outcome) { o.Status? && o.code > 0 }

  // --- Each operation ------------------------------------------------------------

  /** What a successful create_node leaves behind. */
  lemma CreateNodeFields(t: Tables, kind: Kind, parent: int, name: string,
                         mode: int, uid: int, gid: int, rdev: int, now: Time)
    requires InodesAllocated(t)
    ensures var e := CreateNode(t, kind, parent, name, mode, uid, gid, rdev, now);
            var t', k, c := e.tables, (parent, name), t.nextIno;
            var node := NewNode(kind, mode, uid, gid, rdev, now);
            if Succeeded(e.outcome)
            then && k !in t.dentry && IsDir(t.inode, parent) && c !in t.inode
                 && !InsertOverQuota(t, node.size)
                 && t' == InsertRow(t, k, c).(inode := t'.inode, nextIno := c + 1, symlink := t'.symlink)
                 && t'.inode.Keys == t.inode.Keys + {c} && t'.inode[c] == node
                 && (forall i | i in t'.symlink :: i in t.symlink || i == c)
                 && (forall i | i in t.inode ::
                       && t'.inode[i].mode == t.inode[i].mode && t'.inode[i].size == t.inode[i].size
                       && t'.inode[i].nlink == t.inode[i].nlink + if i == parent && kind.Mkdir? then 1 else 0)
            else t' == t
  {
  }

  lemma CreateNodeSound(t: Tables, kind: Kind, parent: int, name: string,
                        mode: int, uid: int, gid: int, rdev: int, now: Time)
    requires Sound(t)
    ensures Sound(CreateNode(t, kind, parent, name, mode, uid, gid, rdev, now).tables)
  {
    var e := CreateNode(t, kind, parent, name, mode, uid, gid, rdev, now);
    CreateNodeFields(t, kind, parent, name, mode, uid, gid, rdev, now);
    if Succeeded(e.outcome) {
      FreshNodeSound(t, (parent, name), NewNode(kind, mode, uid, gid, rdev, now), e.tables);
    }
  }

  /** A created directory has two links and adds one to its parent, unless mknod
      was asked for a directory mode: then the new directory has one link only. */
  lemma CreateNodeDirLinks(t: Tables, kind: Kind, parent: int, name: string,
                           mode: int, uid: int, gid: int, rdev: int, now: Time)
    requires Sound(t) && DirLinks(t)
    ensures var e := CreateNode(t, kind, parent, name, mode, uid, gid, rdev, now);
            DirLinks(e.tables) <==> !(Succeeded(e.outcome) && kind.Mknod? && IsDirMode(mode))
  {
    var e := CreateNode(t, kind, parent, name, mode, uid, gid, rdev, now);
    var k, c := (parent, name), t.nextIno;
    CreateNodeFields(t, kind, parent, name, mode, uid, gid, rdev, now);
    if Succeeded(e.outcome) {
      if kind.Mknod? && IsDirMode(mode) {
        LinksAttach(t.dentry, k, c, c);
        assert e.tables.inode[c].nlink == 1 && OwnLinks(e.tables.dentry, c) == 2;
      } else {
        FreshNodeDirLinks(t, k, NewNode(kind, mode, uid, gid, rdev, now), e.tables);
      }
    }
  }

  /** Touching an existing inode changes only its times. */
  lemma TouchExisting(t: Tables, p: Path, atime: Time, mtime: Time, now: Time)
    requires Resolve(t, ROOT, p).Found? && Touch(t, p, atime, mtime, now).tables != t
    ensures SameRows(t, Touch(t, p, atime, mtime, now).tables)
    ensures SameSizes(t.inode, Touch(t, p, atime, mtime, now).tables.inode)
  {
  }

  /** Touching a missing name makes a one-link file there. */
  lemma TouchCreates(t: Tables, p: Path, atime: Time, mtime: Time, now: Time) returns (k: Key)
    requires InodesAllocated(t) && Resolve(t, ROOT, p).Missing? && Touch(t, p, atime, mtime, now).tables != t
    ensures var t', ino := Touch(t, p, atime, mtime, now).tables, t.nextIno;
            && k !in t.dentry && IsDir(t.inode, k.0) && ino !in t.inode
            && p != [] && ResolveParent(t, p) == Found(k.0) && k.1 == p[|p| - 1]
            && t' == InsertRow(t, k, ino).(inode := t'.inode, nextIno := ino + 1)
            && t'.inode.Keys == t.inode.Keys + {ino}
            && t'.inode[ino].mode == DEFAULT_FILE_MODE && t'.inode[ino].nlink == 1 && t'.inode[ino].size == 0
            && (forall i | i in t.inode :: && t'.inode[i].mode == t.inode[i].mode
                                           && t'.inode[i].nlink == t.inode[i].nlink
                                           && t'.inode[i].size == t.inode[i].size)
            && !InsertOverQuota(t, 0)
  {
    k := (ResolveParent(t, p).ino, p[|p| - 1]);
  }

  lemma TouchSound(t: Tables, p: Path, atime: Time, mtime: Time, now: Time)
    requires Sound(t)
    ensures Sound(Touch(t, p, atime, mtime, now).tables)
    ensures DirLinks(t) ==> DirLinks(Touch(t, p, atime, mtime, now).tables)
  {
    var t' := Touch(t, p, atime, mtime, now).tables;
    if t' != t {
      if Resolve(t, ROOT, p).Found? {
        TouchExisting(t, p, atime, mtime, now);
        SameRowsSound(t, t');
      } else {
        var k := TouchCreates(t, p, atime, mtime, now);
        FreshNodeSound(t, k, t'.inode[t.nextIno], t');
        if DirLinks(t) { FreshNodeDirLinks(t, k, t'.inode[t.nextIno], t'); }
      }
    }
  }

  ghost predicate SameRows(t: Tables, t': Tables) {
    && t'.inode.Keys == t.inode.Keys && t'.nextIno == t.nextIno
    && t'.dentry == t.dentry && t'.symlink == t.symlink && t'.leases == t.leases
    && t'.quotaBytes == t.quotaBytes && t'.quotaInodes == t.quotaInodes
    && (forall i | i in t.inode :: t'.inode[i].mode == t.inode[i].mode && t'.inode[i].nlink == t.inode[i].nlink)
    && (forall c | c in t'.data :: c in t.data || c.0 in t.inode)
  }

  ghost predicate SameSizes(a: map<int, Inode>, b: map<int, Inode>) {
    a.Keys == b.Keys && forall i | i in a :: b[i].size == a[i].size
  }

  /** Only columns of inodes and chunks of existing inodes changed. */
  lemma SameRowsSound(t: Tables, t': Tables)
    requires Sound(t) && SameRows(t, t')
    ensures Sound(t')
    ensures DirLinks(t) ==> DirLinks(t')
  {
    SameDirs(t.inode, t'.inode);
  }

  lemma LinkPathSound(t: Tables, existing: Path, p: Path, now: Time)
    requires Sound(t)
    ensures Sound(LinkPath(t, existing, p, now).tables)
    ensures DirLinks(t) ==> DirLinks(LinkPath(t, existing, p, now).tables)
  {
    if LinkPath(t, existing, p, now).tables != t {
      var source, k := Resolve(t, ROOT, existing).ino, (ResolveParent(t, p).ino, p[|p| - 1]);
      AddLinkSound(t, source, k, now);
      if DirLinks(t) { AddLinkDirLinks(t, source, k, now); }
    }
  }

  lemma LinkSound(t: Tables, source: int, parent: int, name: string, now: Time)
    requires Sound(t)
    ensures Sound(Link(t, source, parent, name, now).tables)
    ensures DirLinks(t) ==> DirLinks(Link(t, source, parent, name, now).tables)
  {
    if Link(t, source, parent, name, now).tables != t {
      AddLinkSound(t, source, (parent, name), now);
      if DirLinks(t) { AddLinkDirLinks(t, source, (parent, name), now); }
    }
  }

  /** The rename passed every check and the destination, if any, was displaced. */
  ghost predicate Renames(t: Tables, k: Key, k': Key) {
    && k.0 > 0 && k'.0 > 0 && k.1 != "" && k'.1 != ""
    && IsDir(t.inode, k.0) && IsDir(t.inode, k'.0)
    && k in t.dentry && t.dentry[k] in t.inode && t.dentry[k] != ROOT && k != k'
    && (IsDir(t.inode, t.dentry[k]) ==> t.dentry[k] !in Ancestors(t.dentry, {k'.0}))
    && (k' in t.dentry ==>
          && t.dentry[k'] in t.inode && t.dentry[k'] != t.dentry[k]
          && (IsDir(t.inode, t.dentry[k']) <==> IsDir(t.inode, t.dentry[k]))
          && (IsDir(t.inode, t.dentry[k']) ==> Empty(t.dentry, t.dentry[k'])))
  }

  ghost function Cleared(t: Tables, k': Key, now: Time): Tables
    requires k' in t.dentry ==> t.dentry[k'] in t.inode
  {
    if k' in t.dentry then Displace(t, k', now) else t
  }

  lemma RenameCases(t: Tables, k: Key, k': Key, now: Time)
    ensures var e := RenameNode(t, k.0, k.1, k'.0, k'.1, now);
            if Renames(t, k, k')
            then && k in Cleared(t, k', now).dentry
                 && e == Effect(Move(Cleared(t, k', now), k, k', now), Status(t.dentry[k]))
            else e.tables == t
  {
  }

  /** Displacing the destination leaves the source row and both parents in place. */
  lemma ClearedKeeps(t: Tables, k: Key, k': Key, now: Time)
    requires Sound(t) && Renames(t, k, k') && k' in t.dentry
    ensures var t1 := Displace(t, k', now);
            && Sound(t1) && (DirLinks(t) ==> DirLinks(t1))
            && t1.dentry == t.dentry - {k'}
            && k.0 != t.dentry[k'] && k'.0 != t.dentry[k']
            && forall i | i in t.inode && i != t.dentry[k'] :: i in t1.inode && t1.inode[i].mode == t.inode[i].mode
  {
    var dst := t.dentry[k'];
    if !IsDir(t.inode, dst) { assert Empty(t.dentry, dst); }
    DisplaceSound(t, k', now);
    RowNotLoop(t, k');
    UnlinkedFields(t, k', now);
  }

  /** What the rename's second half starts from. */
  lemma ClearedReady(t: Tables, k: Key, k': Key, now: Time)
    requires Sound(t) && Renames(t, k, k')
    ensures var t1 := Cleared(t, k', now);
            && Sound(t1) && (DirLinks(t) ==> DirLinks(t1))
            && t1.dentry == t.dentry - {k'}
            && k in t1.dentry && k' !in t1.dentry && t1.dentry[k] == t.dentry[k]
            && IsDir(t1.inode, k.0) && IsDir(t1.inode, k'.0)
            && (IsDir(t1.inode, t1.dentry[k]) <==> IsDir(t.inode, t.dentry[k]))
            && (IsDir(t1.inode, t1.dentry[k]) ==> !Reaches(t1.dentry, t1.dentry[k], k'.0))
  {
    if k' in t.dentry { ClearedKeeps(t, k, k', now); } else { assert t.dentry - {k'} == t.dentry; }
    if IsDir(t.inode, t.dentry[k]) { NotAncestor(t.dentry, t.dentry - {k'}, t.dentry[k], k'.0); }
  }

  lemma NotAncestor(d: Graph, e: Graph, a: int, b: int)
    requires a !in Ancestors(d, {b})
    requires forall k | k in e :: k in d && d[k] == e[k]
    ensures !Reaches(e, a, b)
  {
    AncestorsExact(d, a, b);
    forall p ensures Walk(e, a, p) != Some(b) {
      if Walk(e, a, p) == Some(b) { WalkMonotone(e, d, a, p); }
    }
  }

  lemma RenameSound(t: Tables, k: Key, k': Key, now: Time)
    requires Sound(t)
    ensures Sound(RenameNode(t, k.0, k.1, k'.0, k'.1, now).tables)
    ensures DirLinks(t) ==> DirLinks(RenameNode(t, k.0, k.1, k'.0, k'.1, now).tables)
  {
    RenameCases(t, k, k', now);
    if Renames(t, k, k') {
      ClearedReady(t, k, k', now);
      MoveSound(Cleared(t, k', now), k, k', now);
      if DirLinks(t) { MoveDirLinks(Cleared(t, k', now), k, k', now); }
    }
  }

  /** The two data operations touch one inode's size, times and chunks. */
  lemma PwriteSameRows(t: Tables, i: int, offset: int, bytes: seq<Byte>, chunkSize: int, now: Time)
    ensures SameRows(t, Pwrite(t, i, offset, bytes, chunkSize, now).tables)
  {
    var e := Pwrite(t, i, offset, bytes, chunkSize, now);
    if e.outcome.Status? {
      var row := t.inode[i].(size := Max(t.inode[i].size, offset + |bytes|), mtime := now);
      var data := Written(t.data, i, chunkSize, offset, bytes);
      SameRowsModified(t, i, row, data);
      assert e.tables == Modified(t.(data := data, inode := t.inode[i := row]), i);
    }
  }

  /** New data and a new size and times of one inode, with their event. */
  lemma SameRowsModified(t: Tables, i: int, row: Inode, data: map<(int, int), seq<Byte>>)
    requires i in t.inode && row.mode == t.inode[i].mode && row.nlink == t.inode[i].nlink
    requires forall c | c in data :: c in t.data || c.0 == i
    ensures SameRows(t, Modified(t.(data := data, inode := t.inode[i := row]), i))
  {
  }

  lemma TruncateSameRows(t: Tables, i: int, n: int, chunkSize: int, now: Time)
    ensures SameRows(t, Truncate(t, i, n, chunkSize, now).tables)
  {
    var e := Truncate(t, i, n, chunkSize, now);
    if e.outcome.Status? && i in t.inode {
      var row := t.inode[i].(size := n, mtime := now, ctime := now);
      var data := Truncated(t.data, i, chunkSize, t.inode[i].size, n);
      TruncatedKeys(t.data, i, chunkSize, t.inode[i].size, n);
      SameRowsModified(t, i, row, data);
      assert e.tables == Modified(t.(data := data, inode := t.inode[i := row]), i);
    }
  }

  lemma TruncatedKeys(data: map<(int, int), seq<Byte>>, i: int, chunkSize: int, size: int, n: int)
    requires 0 < chunkSize && 0 <= size && 0 <= n
    ensures forall c | c in Truncated(data, i, chunkSize, size, n) :: c in data || c.0 == i
  {
  }

  lemma PinSameRows(t: Tables, session: string, i: int, expiresAt: int)
    requires Sound(t)
    ensures Sound(Pin(t, session, i, expiresAt).tables)
    ensures DirLinks(t) ==> DirLinks(Pin(t, session, i, expiresAt).tables)
  {
  }

  /** Closing a handle is about to delete a directory that still has rows. */
  ghost predicate ReapsUsedDirectory(t: Tables, op: Op) {
    && op.OpUnpin? && op.ino != ROOT && IsDir(t.inode, op.ino) && t.inode[op.ino].nlink == 0
    && !Leased(Released(t.leases, op.session, op.ino), op.ino, op.now)
    && exists k | k in t.dentry :: k.0 == op.ino || t.dentry[k] == op.ino
  }

  lemma LeasesOnlySound(t: Tables, leases: map<(string, int), Lease>)
    requires Sound(t) && forall l | l in leases :: l.1 in t.inode
    ensures Sound(t.(leases := leases))
    ensures DirLinks(t) ==> DirLinks(t.(leases := leases))
  {
  }

  /** Deleting an inode keeps the namespace sound exactly when no row involves it. */
  lemma ReapExactly(t: Tables, i: int)
    requires Sound(t) && i in t.inode && i != ROOT && t.inode[i].nlink == 0
    ensures Sound(DeleteInode(t, i)) <==>
            !(IsDir(t.inode, i) && exists k | k in t.dentry :: k.0 == i || t.dentry[k] == i)
    ensures DirLinks(t) && Sound(DeleteInode(t, i)) ==> DirLinks(DeleteInode(t, i))
  {
    if !IsDir(t.inode, i) { NoRows(t.dentry, i); }
    if exists k | k in t.dentry :: k.0 == i || t.dentry[k] == i {
      assert i !in Dirs(DeleteInode(t, i).inode);
    } else {
      DeleteInodeSound(t, i);
    }
  }

  lemma UnpinSound(t: Tables, session: string, i: int, now: Time)
    requires Sound(t)
    ensures Sound(Unpin(t, session, i, now).tables) <==> !ReapsUsedDirectory(t, OpUnpin(session, i, now))
    ensures DirLinks(t) && !ReapsUsedDirectory(t, OpUnpin(session, i, now))
            ==> DirLinks(Unpin(t, session, i, now).tables)
  {
    LeasesOnlySound(t, Released(t.leases, session, i));
    var t1 := t.(leases := Released(t.leases, session, i));
    if i in t.inode && t.inode[i].nlink == 0 && i != ROOT && !Leased(t1.leases, i, now) { ReapExactly(t1, i); }
  }

  // --- Every operation -----------------------------------------------------------

  /** An operation keeps the namespace sound exactly when it does not reap a
      directory that is still in use; no other argument matters. */
  lemma ApplySound(t: Tables, op: Op)
    requires Sound(t)
    ensures Sound(Apply(t, op).tables) <==> !ReapsUsedDirectory(t, op)
  {
    match op
    case OpCreate(kind, parent, name, mode, uid, gid, rdev, now) =>
      CreateNodeSound(t, kind, parent, name, mode, uid, gid, rdev, now);
    case OpLink(source, parent, name, now) => LinkSound(t, source, parent, name, now);
    case OpRename(op, on, np, nn, now) => RenameSound(t, (op, on), (np, nn), now);
    case OpTouch(p, atime, mtime, now) => TouchSound(t, p, atime, mtime, now);
    case OpLinkPath(existing, p, now) => LinkPathSound(t, existing, p, now);
    case OpPwrite(i, offset, bytes, chunkSize, now) =>
      PwriteSameRows(t, i, offset, bytes, chunkSize, now);
      SameRowsSound(t, Apply(t, op).tables);
    case OpTruncate(i, n, chunkSize, now) =>
      TruncateSameRows(t, i, n, chunkSize, now);
      SameRowsSound(t, Apply(t, op).tables);
    case OpPin(session, i, expiresAt) => PinSameRows(t, session, i, expiresAt);
    case OpUnpin(session, i, now) => UnpinSound(t, session, i, now);
  }

  /** A mknod that is about to succeed with a directory's mode bits. */
  ghost predicate MakesDirectoryByMknod(t: Tables, op: Op) {
    && op.OpCreate? && op.kind.Mknod? && IsDirMode(op.mode)
    && (op.parent, op.name) !in t.dentry && IsDir(t.inode, op.parent) && !InsertOverQuota(t, 0)
  }

  /** Directory link counts survive an operation exactly when it is not such a mknod. */
  lemma ApplyDirLinks(t: Tables, op: Op)
    requires Sound(t) && DirLinks(t) && !ReapsUsedDirectory(t, op)
    ensures DirLinks(Apply(t, op).tables) <==> !MakesDirectoryByMknod(t, op)
  {
    match op
    case OpCreate(kind, parent, name, mode, uid, gid, rdev, now) =>
      CreateNodeDirLinks(t, kind, parent, name, mode, uid, gid, rdev, now);
    case OpLink(source, parent, name, now) => LinkSound(t, source, parent, name, now);
    case OpRename(op, on, np, nn, now) => RenameSound(t, (op, on), (np, nn), now);
    case OpTouch(p, atime, mtime, now) => TouchSound(t, p, atime, mtime, now);
    case OpLinkPath(existing, p, now) => LinkPathSound(t, existing, p, now);
    case OpPwrite(i, offset, bytes, chunkSize, now) =>
      PwriteSameRows(t, i, offset, bytes, chunkSize, now);
      SameRowsSound(t, Apply(t, op).tables);
    case OpTruncate(i, n, chunkSize, now) =>
      TruncateSameRows(t, i, n, chunkSize, now);
      SameRowsSound(t, Apply(t, op).tables);
    case OpPin(session, i, expiresAt) => PinSameRows(t, session, i, expiresAt);
    case OpUnpin(session, i, now) => UnpinSound(t, session, i, now);
  }

  /** An operation that throws or returns a status of zero or less changes no table. */
  lemma RefusedChangesNothing(t: Tables, op: Op)
    requires Sound(t) && !Succeeded(Apply(t, op).outcome)
    ensures Apply(t, op).tables == t
  {
    match op
    case OpCreate(kind, parent, name, mode, uid, gid, rdev, now) =>
    case OpLink(source, parent, name, now) =>
    case OpRename(op, on, np, nn, now) => RenameCases(t, (op, on), (np, nn), now);
    case OpTouch(p, atime, mtime, now) => if Resolve(t, ROOT, p).Found? { ResolveExists(t, ROOT, p); }
    case OpLinkPath(existing, p, now) =>
      if Resolve(t, ROOT, existing).Found? { ResolveExists(t, ROOT, existing); }
    case OpPwrite(i, offset, bytes, chunkSize, now) =>
    case OpTruncate(i, n, chunkSize, now) =>
    case OpPin(session, i, expiresAt) =>
    case OpUnpin(session, i, now) =>
  }

  lemma {:induction false} ResolveExists(t: Tables, i: int, p: Path)
    requires i in t.inode && Resolve(t, i, p).Found?
    ensures Resolve(t, i, p).ino in t.inode
    decreases |p|
  {
    if p != [] { ResolveExists(t, t.dentry[(i, p[0])], p[1..]); }
  }

  // --- Quotas ---------------------------------------------------------------------

  ghost predicate WithinQuota(t: Tables) {
    && (forall i | i in t.inode :: t.inode[i].size >= 0)
    && (t.quotaInodes.Some? ==> |t.inode.Keys| <= t.quotaInodes.value)
    && (t.quotaBytes.Some? ==> Total(Sizes(t.inode)) <= t.quotaBytes.value)
  }

  lemma SameSizesQuota(t: Tables, t': Tables)
    requires WithinQuota(t) && t'.quotaBytes == t.quotaBytes && t'.quotaInodes == t.quotaInodes
    requires SameSizes(t.inode, t'.inode)
    ensures WithinQuota(t')
  {
    forall i | i in t'.inode ensures i in t.inode && Sizes(t'.inode)[i] == Sizes(t.inode)[i] {
      assert i in t.inode.Keys;
    }
    assert Sizes(t'.inode).Keys == t'.inode.Keys && Sizes(t.inode).Keys == t.inode.Keys;
    assert Sizes(t'.inode) == Sizes(t.inode);
  }

  lemma SizesUpdate(a: map<int, Inode>, b: map<int, Inode>, i: int)
    requires b.Keys == a.Keys + {i} && forall j | j in a && j != i :: b[j].size == a[j].size
    ensures Sizes(b) == Sizes(a)[i := b[i].size]
  {
    forall j | j in b ensures Sizes(b)[j] == Sizes(a)[i := b[i].size][j] {
      assert j == i || j in a.Keys;
    }
    assert Sizes(b).Keys == b.Keys && Sizes(a)[i := b[i].size].Keys == a.Keys + {i};
  }

  lemma InsertQuota(t: Tables, t': Tables, i: int)
    requires WithinQuota(t) && t'.quotaBytes == t.quotaBytes && t'.quotaInodes == t.quotaInodes
    requires i !in t.inode && t'.inode.Keys == t.inode.Keys + {i} && t'.inode[i].size >= 0
    requires forall j | j in t.inode :: t'.inode[j].size == t.inode[j].size
    requires !InsertOverQuota(t, t'.inode[i].size)
    ensures WithinQuota(t')
  {
    TotalInsert(Sizes(t.inode), i, t'.inode[i].size);
    SizesUpdate(t.inode, t'.inode, i);
    forall j | j in t'.inode ensures t'.inode[j].size >= 0 { assert j == i || j in t.inode.Keys; }
  }

  lemma ResizeQuota(t: Tables, t': Tables, i: int)
    requires WithinQuota(t) && t'.quotaBytes == t.quotaBytes && t'.quotaInodes == t.quotaInodes
    requires i in t.inode && t'.inode.Keys == t.inode.Keys && t'.inode[i].size >= 0
    requires forall j | j in t.inode && j != i :: t'.inode[j].size == t.inode[j].size
    requires !ResizeOverQuota(t, i, t'.inode[i].size)
    ensures WithinQuota(t')
  {
    TotalUpdate(Sizes(t.inode), i, t'.inode[i].size);
    assert t.inode.Keys == t.inode.Keys + {i};
    SizesUpdate(t.inode, t'.inode, i);
    forall j | j in t'.inode ensures t'.inode[j].size >= 0 { assert j == i || j in t.inode.Keys; }
  }

  lemma DeleteQuota(t: Tables, t': Tables, i: int)
    requires WithinQuota(t) && t'.quotaBytes == t.quotaBytes && t'.quotaInodes == t.quotaInodes
    requires i in t.inode && t'.inode == t.inode - {i}
    ensures WithinQuota(t')
  {
    SizesWithout(t.inode, t'.inode, i);
    TotalWithout(Sizes(t.inode), i);
  }

  lemma SizesWithout(a: map<int, Inode>, b: map<int, Inode>, i: int)
    requires i in a && b == a - {i}
    ensures Sizes(b) == Sizes(a) - {i} && |b.Keys| == |a.Keys| - 1
  {
    assert b.Keys == a.Keys - {i};
  }

  lemma RenameQuota(t: Tables, k: Key, k': Key, now: Time)
    requires Sound(t) && WithinQuota(t) && Renames(t, k, k')
    ensures WithinQuota(RenameNode(t, k.0, k.1, k'.0, k'.1, now).tables)
  {
    RenameCases(t, k, k', now);
    ClearedReady(t, k, k', now);
    var t1 := Cleared(t, k', now);
    if k' in t.dentry {
      RowNotLoop(t, k');
      UnlinkedFields(t, k', now);
      SameSizesQuota(t, Unlinked(t, k', now));
      DeleteQuota(Unlinked(t, k', now), DeleteInode(Unlinked(t, k', now), t.dentry[k']), t.dentry[k']);
    }
    MoveFields(t1, k, k', now);
    SameSizesQuota(t1, Move(t1, k, k', now));
  }

  lemma PwriteQuota(t: Tables, i: int, offset: int, bytes: seq<Byte>, chunkSize: int, now: Time)
    requires WithinQuota(t)
    ensures WithinQuota(Pwrite(t, i, offset, bytes, chunkSize, now).tables)
  {
    var t' := Pwrite(t, i, offset, bytes, chunkSize, now).tables;
    if t' != t { ResizeQuota(t, t', i); }
  }

  lemma TruncateQuota(t: Tables, i: int, n: int, chunkSize: int, now: Time)
    requires WithinQuota(t)
    ensures WithinQuota(Truncate(t, i, n, chunkSize, now).tables)
  {
    var t' := Truncate(t, i, n, chunkSize, now).tables;
    if t' != t { ResizeQuota(t, t', i); }
  }

  lemma TouchQuota(t: Tables, p: Path, atime: Time, mtime: Time, now: Time)
    requires Sound(t) && WithinQuota(t)
    ensures WithinQuota(Touch(t, p, atime, mtime, now).tables)
  {
    var t' := Touch(t, p, atime, mtime, now).tables;
    if t' != t {
      if Resolve(t, ROOT, p).Found? {
        TouchExisting(t, p, atime, mtime, now);
        SameSizesQuota(t, t');
      } else {
        var _ := TouchCreates(t, p, atime, mtime, now);
        InsertQuota(t, t', t.nextIno);
      }
    }
  }

  lemma AddLinkQuota(t: Tables, source: int, k: Key, now: Time)
    requires WithinQuota(t) && k.0 in t.inode && source in t.inode && source != k.0
    ensures WithinQuota(AddLink(t, source, k, now))
  {
    AddLinkFields(t, source, k, now);
    SameSizesQuota(t, AddLink(t, source, k, now));
  }

  lemma CreateNodeQuota(t: Tables, kind: Kind, parent: int, name: string,
                        mode: int, uid: int, gid: int, rdev: int, now: Time)
    requires Sound(t) && WithinQuota(t)
    ensures WithinQuota(CreateNode(t, kind, parent, name, mode, uid, gid, rdev, now).tables)
  {
    var t' := CreateNode(t, kind, parent, name, mode, uid, gid, rdev, now).tables;
    if t' != t { InsertQuota(t, t', t.nextIno); }
  }

  lemma LinkQuota(t: Tables, source: int, parent: int, name: string, now: Time)
    requires Sound(t) && WithinQuota(t)
    ensures WithinQuota(Link(t, source, parent, name, now).tables)
  {
    if Link(t, source, parent, name, now).tables != t { AddLinkQuota(t, source, (parent, name), now); }
  }

  lemma LinkPathQuota(t: Tables, existing: Path, p: Path, now: Time)
    requires Sound(t) && WithinQuota(t)
    ensures WithinQuota(LinkPath(t, existing, p, now).tables)
  {
    if LinkPath(t, existing, p, now).tables != t {
      AddLinkQuota(t, Resolve(t, ROOT, existing).ino, (ResolveParent(t, p).ino, p[|p| - 1]), now);
    }
  }

  lemma UnpinQuota(t: Tables, session: string, i: int, now: Time)
    requires WithinQuota(t)
    ensures WithinQuota(Unpin(t, session, i, now).tables)
  {
    var t' := Unpin(t, session, i, now).tables;
    if t'.inode != t.inode { DeleteQuota(t, t', i); }
  }

  /** The quota triggers keep usage within both quotas. */
  lemma ApplyQuota(t: Tables, op: Op)
    requires Sound(t) && WithinQuota(t)
    ensures WithinQuota(Apply(t, op).tables)
  {
    match op
    case OpCreate(kind, parent, name, mode, uid, gid, rdev, now) =>
      CreateNodeQuota(t, kind, parent, name, mode, uid, gid, rdev, now);
    case OpLink(source, parent, name, now) => LinkQuota(t, source, parent, name, now);
    case OpRename(op, on, np, nn, now) =>
      RenameCases(t, (op, on), (np, nn), now);
      if Renames(t, (op, on), (np, nn)) { RenameQuota(t, (op, on), (np, nn), now); }
    case OpTouch(p, atime, mtime, now) => TouchQuota(t, p, atime, mtime, now);
    case OpLinkPath(existing, p, now) => LinkPathQuota(t, existing, p, now);
    case OpPwrite(i, offset, bytes, chunkSize, now) => PwriteQuota(t, i, offset, bytes, chunkSize, now);
    case OpTruncate(i, n, chunkSize, now) => TruncateQuota(t, i, n, chunkSize, now);
    case OpPin(session, i, expiresAt) =>
    case OpUnpin(session, i, now) => UnpinQuota(t, session, i, now);
  }

  // --- Runs ------------------------------------------------------------------------

  /** A directory that has a row of its own, or the root. */
  ghost predicate LinkedDir(d: Graph, i: int) {
    i == ROOT || exists k | k in d :: d[k] == i
  }

  /** A directory that lost its row holds none. */
  ghost predicate DetachedEmpty(d: Graph) {
    forall k | k in d :: LinkedDir(d, k.0)
  }

  /** What the compound operations ask of their callers and do not check: parent
      arguments are linked, and mknod is not used for directories. */
  ghost predicate Careful(t: Tables, op: Op) {
    match op
    case OpCreate(kind, parent, _, mode, _, _, _, _) => LinkedDir(t.dentry, parent) && !(kind.Mknod? && IsDirMode(mode))
    case OpLink(_, parent, _, _) => LinkedDir(t.dentry, parent)
    case OpRename(oldParent, _, newParent, _, _) => LinkedDir(t.dentry, oldParent) && LinkedDir(t.dentry, newParent)
    case _ => true
  }

  ghost predicate CarefulRun(t: Tables, ops: seq<Op>)
    decreases |ops|
  {
    ops == [] || (Careful(t, ops[0]) && CarefulRun(Apply(t, ops[0]).tables, ops[1..]))
  }

  ghost predicate Tidy(t: Tables) { Sound(t) && DirLinks(t) && DetachedEmpty(t.dentry) }

  lemma NoRows(d: Graph, i: int)
    requires Links(d, i) == 0
    ensures forall r | r in d :: d[r] != i
  {
    assert RowsOf(d, i) == {};
    forall r | r in d ensures d[r] != i {
      assert d[r] == i ==> r in RowsOf(d, i);
    }
  }

  lemma TidyReaps(t: Tables, op: Op)
    requires Tidy(t)
    ensures !ReapsUsedDirectory(t, op)
  {
    if op.OpUnpin? && op.ino != ROOT && IsDir(t.inode, op.ino) && t.inode[op.ino].nlink == 0 {
      NoRows(t.dentry, op.ino);
      forall k | k in t.dentry ensures k.0 != op.ino && t.dentry[k] != op.ino {
        assert LinkedDir(t.dentry, k.0);
      }
    }
  }

  lemma {:induction false} ResolveLinked(t: Tables, i: int, p: Path)
    requires LinkedDir(t.dentry, i) && Resolve(t, i, p).Found?
    ensures LinkedDir(t.dentry, Resolve(t, i, p).ino)
    decreases |p|
  {
    if p != [] { ResolveLinked(t, t.dentry[(i, p[0])], p[1..]); }
  }

  lemma AttachDetached(d: Graph, k: Key, c: int)
    requires DetachedEmpty(d) && LinkedDir(d, k.0) && k !in d
    ensures DetachedEmpty(d[k := c])
  {
    forall r | r in d[k := c] ensures LinkedDir(d[k := c], r.0) {
      assert LinkedDir(d, r.0);
      if r.0 != ROOT {
        var s :| s in d && d[s] == r.0;
        assert d[k := c][s] == r.0;
      }
    }
  }

  lemma MoveDetached(d: Graph, k: Key, k': Key)
    requires DetachedEmpty(d) && k in d && k != k' && LinkedDir(d, k'.0)
    requires k' in d ==> Empty(d, d[k']) && d[k'] != k'.0
    ensures DetachedEmpty(((d - {k'}) - {k})[k' := d[k]])
  {
    var e := ((d - {k'}) - {k})[k' := d[k]];
    forall r | r in e ensures LinkedDir(e, r.0) {
      assert LinkedDir(d, r.0);
      if r.0 != ROOT {
        var s :| s in d && d[s] == r.0;
        assert s != k'; // the displaced entry is the parent of no remaining row
        assert e[if s == k then k' else s] == r.0;
      }
    }
  }

  lemma RenameDetached(t: Tables, k: Key, k': Key, now: Time)
    requires Tidy(t) && Renames(t, k, k') && LinkedDir(t.dentry, k'.0)
    ensures DetachedEmpty(RenameNode(t, k.0, k.1, k'.0, k'.1, now).tables.dentry)
  {
    RenameCases(t, k, k', now);
    ClearedReady(t, k, k', now);
    MoveFields(Cleared(t, k', now), k, k', now);
    if k' in t.dentry { ClearedKeeps(t, k, k', now); }
    MoveDetached(t.dentry, k, k');
  }

  lemma TouchDetached(t: Tables, p: Path, atime: Time, mtime: Time, now: Time)
    requires Tidy(t)
    ensures DetachedEmpty(Touch(t, p, atime, mtime, now).tables.dentry)
  {
    if Touch(t, p, atime, mtime, now).tables != t {
      if Resolve(t, ROOT, p).Found? {
        TouchExisting(t, p, atime, mtime, now);
      } else {
        var k := TouchCreates(t, p, atime, mtime, now);
        ResolveLinked(t, ROOT, p[..|p| - 1]);
        AttachDetached(t.dentry, k, t.nextIno);
      }
    }
  }

  lemma LinkPathDetached(t: Tables, existing: Path, p: Path, now: Time)
    requires Tidy(t)
    ensures DetachedEmpty(LinkPath(t, existing, p, now).tables.dentry)
  {
    if LinkPath(t, existing, p, now).tables != t {
      ResolveLinked(t, ROOT, p[..|p| - 1]);
      AttachDetached(t.dentry, (ResolveParent(t, p).ino, p[|p| - 1]), Resolve(t, ROOT, existing).ino);
    }
  }

  lemma DataSameDentry(t: Tables, op: Op)
    requires op.OpPwrite? || op.OpTruncate? || op.OpPin? || op.OpUnpin?
    ensures Apply(t, op).tables.dentry == t.dentry
  {
  }

  /** With careful callers every operation keeps all three, and no reap does harm. */
  lemma CarefulApply(t: Tables, op: Op)
    requires Tidy(t) && Careful(t, op)
    ensures Tidy(Apply(t, op).tables)
  {
    TidyReaps(t, op);
    ApplySound(t, op);
    ApplyDirLinks(t, op);
    match op
    case OpCreate(kind, parent, name, mode, uid, gid, rdev, now) =>
      CreateNodeFields(t, kind, parent, name, mode, uid, gid, rdev, now);
      if (parent, name) !in t.dentry { AttachDetached(t.dentry, (parent, name), t.nextIno); }
    case OpLink(source, parent, name, now) =>
      if (parent, name) !in t.dentry { AttachDetached(t.dentry, (parent, name), source); }
    case OpRename(op, on, np, nn, now) =>
      RenameCases(t, (op, on), (np, nn), now);
      if Renames(t, (op, on), (np, nn)) { RenameDetached(t, (op, on), (np, nn), now); }
    case OpTouch(p, atime, mtime, now) => TouchDetached(t, p, atime, mtime, now);
    case OpLinkPath(existing, p, now) => LinkPathDetached(t, existing, p, now);
    case OpPwrite(_, _, _, _, _) => DataSameDentry(t, op);
    case OpTruncate(_, _, _, _) => DataSameDentry(t, op);
    case OpPin(_, _, _) => DataSameDentry(t, op);
    case OpUnpin(_, _, _) => DataSameDentry(t, op);
  }

  lemma {:induction false} RunTidy(t: Tables, ops: seq<Op>)
    requires Tidy(t) && CarefulRun(t, ops)
    ensures Tidy(Run(t, ops))
    decreases |ops|
  {
    if ops != [] {
      CarefulApply(t, ops[0]);
      RunTidy(Apply(t, ops[0]).tables, ops[1..]);
    }
  }

  lemma {:induction false} RunWithinQuota(t: Tables, ops: seq<Op>)
    requires Tidy(t) && CarefulRun(t, ops) && WithinQuota(t)
    ensures WithinQuota(Run(t, ops))
    decreases |ops|
  {
    if ops != [] {
      CarefulApply(t, ops[0]);
      ApplyQuota(t, ops[0]);
      RunWithinQuota(Apply(t, ops[0]).tables, ops[1..]);
    }
  }

  lemma SeedTidy(now: Time, quotaBytes: Option<int>, quotaInodes: Option<int>)
    ensures Tidy(Seed(now, quotaBytes, quotaInodes))
  {
    var t := Seed(now, quotaBytes, quotaInodes);
    forall i, p | p != [] ensures Walk(t.dentry, i, p) != Some(i) {
      LeafWalk(t.dentry, i, p);
    }
    assert RowsOf(t.dentry, ROOT) == {} && SubdirRows(t.dentry, Dirs(t.inode), ROOT) == {};
  }

  /** Every run of careful calls from the seeded root: the graph is a tree with at
      most one row per directory, no row dangles, nothing outlives its inode, a
      file has as many links as rows, a linked directory 2 plus its
      subdirectories, the root 1 plus, and an inode without rows has none. A quota that
      the fresh volume meets is met ever after. */
  lemma EveryCarefulRun(now: Time, quotaBytes: Option<int>, quotaInodes: Option<int>, ops: seq<Op>, i: int)
    requires CarefulRun(Seed(now, quotaBytes, quotaInodes), ops)
    requires i in Run(Seed(now, quotaBytes, quotaInodes), ops).inode
    ensures var t := Run(Seed(now, quotaBytes, quotaInodes), ops);
            && Sound(t)
            && t.inode[i].nlink == if i == ROOT then 1 + Subdirs(t.dentry, Dirs(t.inode), i)
                                   else if !IsDir(t.inode, i) then Links(t.dentry, i)
                                   else if Links(t.dentry, i) > 0 then 2 + Subdirs(t.dentry, Dirs(t.inode), i)
                                   else 0
    ensures WithinQuota(Seed(now, quotaBytes, quotaInodes)) ==>
              WithinQuota(Run(Seed(now, quotaBytes, quotaInodes), ops))
  {
    var t := Run(Seed(now, quotaBytes, quotaInodes), ops);
    SeedTidy(now, quotaBytes, quotaInodes);
    RunTidy(Seed(now, quotaBytes, quotaInodes), ops);
    if WithinQuota(Seed(now, quotaBytes, quotaInodes)) {
      RunWithinQuota(Seed(now, quotaBytes, quotaInodes), ops);
    }
    if i != ROOT && IsDir(t.inode, i) && Links(t.dentry, i) == 0 {
      NoRows(t.dentry, i);
      assert SubdirRows(t.dentry, Dirs(t.inode), i) == {};
    }
  }

  /** One mknod with a directory mode is enough to get a directory of one link. */
  lemma MknodBreaksDirLinks(now: Time)
    ensures var t0 := Seed(now, None, None);
            !DirLinks(Run(t0, [OpCreate(Mknod, ROOT, "d", 0x41ed, 0, 0, 0, now)]))
  {
    var t0, op := Seed(now, None, None), OpCreate(Mknod, ROOT, "d", 0x41ed, 0, 0, 0, now);
    SeedTidy(now, None, None);
    ApplyDirLinks(t0, op);
    assert Run(t0, [op]) == Run(Apply(t0, op).tables, []);
  }
}
