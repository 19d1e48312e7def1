/** What each filesystem operation answers and what it leaves in the rows it is about,
    column by column. */
module OperationLaws {
  import opened Wrappers
  import opened DentryGraph
  import opened Totals
  import opened Tables

  /** S_ISDIR of the stored mode. */
  ghost predicate Directory(t: Tables, i: int) { i in t.inode && t.inode[i].mode / 4096 % 16 == 4 }

  /** Some row of the directory is left. */
  ghost predicate Occupied(t: Tables, i: int) { exists k :: k in t.dentry && k.0 == i }

  /** A session holds the inode open, and its lease has not run out. */
  ghost predicate Open(t: Tables, i: int, now: Time) {
    exists l :: l in t.leases && l.1 == i && t.leases[l].openCount >= 1 && now.secs < t.leases[l].expiresAt
  }

  /** The directory's times are moved on, and its links changed by `links`. */
  ghost predicate Touched(row: Inode, row': Inode, links: int, now: Time) {
    row' == row.(mtime := now, ctime := now, nlink := row.nlink + links)
  }

  /** Nothing but the name table, these inode rows and the feed has changed. */
  ghost predicate OnlyRows(t: Tables, t': Tables, rows: set<int>) {
    && t'.data == t.data && t'.leases == t.leases && t'.quotaBytes == t.quotaBytes && t'.quotaInodes == t.quotaInodes
    && t'.inode.Keys == t.inode.Keys + rows && t.feed <= t'.feed
    && forall i | i in t.inode && i !in rows :: t'.inode[i] == t.inode[i]
  }

  // --- create_node -----------------------------------------------------------------

  /** 0 for a name that is taken, -1 without a parent directory, an error over quota,
      and otherwise the new inode's number. */
  lemma CreateAnswers(t: Tables, kind: Kind, parent: int, name: string, mode: int, uid: int, gid: int, rdev: int,
                      now: Time)
    ensures var e := Apply(t, OpCreate(kind, parent, name, mode, uid, gid, rdev, now));
            var size := if kind.Symlink? then kind.utf8Length else 0;
            var over := || (t.quotaInodes.Some? && |t.inode.Keys| >= t.quotaInodes.value)
                        || (size > 0 && t.quotaBytes.Some? && Total(Sizes(t.inode)) + size > t.quotaBytes.value);
            if (parent, name) in t.dentry then e == Effect(t, Status(0))
            else if !Directory(t, parent) then e == Effect(t, Status(-1))
            else if over then e == Effect(t, Threw)
            else e.outcome == Status(t.nextIno)
  {
  }

  /** Each column of the new row is the one asked for, and the link's target is stored. */
  lemma Created(t: Tables, kind: Kind, parent: int, name: string, mode: int, uid: int, gid: int, rdev: int,
                now: Time)
    requires t.nextIno > 0 && t.nextIno !in t.inode && Directory(t, parent) && (parent, name) !in t.dentry
    requires Apply(t, OpCreate(kind, parent, name, mode, uid, gid, rdev, now)).outcome == Status(t.nextIno)
    ensures var t', ino := Apply(t, OpCreate(kind, parent, name, mode, uid, gid, rdev, now)).tables, t.nextIno;
            && t'.dentry == t.dentry[(parent, name) := ino] && t'.nextIno == ino + 1
            && OnlyRows(t, t', {ino, parent})
            && Touched(t.inode[parent], t'.inode[parent], if kind.Mkdir? then 1 else 0, now)
            && (match kind
                case Mkdir =>
                  && t'.inode[ino] == Inode(16384 + mode % 4096, 2, uid, gid, 0, 0, now, now, now)
                  && Directory(t', ino) && t'.symlink == t.symlink
                case Mknod =>
                  t'.inode[ino] == Inode(mode, 1, uid, gid, 0, rdev, now, now, now) && t'.symlink == t.symlink
                case Symlink(target, length) =>
                  && t'.inode[ino] == Inode(40960 + 511, 1, uid, gid, length, 0, now, now, now)
                  && t'.symlink == t.symlink[ino := target])
  {
  }

  // --- link --------------------------------------------------------------------------

  lemma Linked(t: Tables, source: int, parent: int, name: string, now: Time)
    ensures var e := Apply(t, OpLink(source, parent, name, now));
            if (parent, name) in t.dentry then e == Effect(t, Status(0))
            else if source !in t.inode then e == Effect(t, Status(-1))
            else if Directory(t, source) then e == Effect(t, Status(-2))
            else if !Directory(t, parent) then e == Effect(t, Status(-1))
            else
              && e.outcome == Status(source) && e.tables.dentry == t.dentry[(parent, name) := source]
              && OnlyRows(t, e.tables, {source, parent}) && e.tables.symlink == t.symlink
              && e.tables.inode[source] == t.inode[source].(nlink := t.inode[source].nlink + 1, ctime := now)
              && Touched(t.inode[parent], e.tables.inode[parent], 0, now)
  {
  }

  // --- rename --------------------------------------------------------------------------

  /** The statuses of a rename that is refused or has nothing to do, in this order. */
  lemma RenameAnswers(t: Tables, oldParent: int, oldName: string, newParent: int, newName: string, now: Time)
    ensures var e := Apply(t, OpRename(oldParent, oldName, newParent, newName, now));
            var k, k' := (oldParent, oldName), (newParent, newName);
            if oldParent < 1 || newParent < 1 || |oldName| == 0 || |newName| == 0 then e == Effect(t, Threw)
            else if !Directory(t, oldParent) || !Directory(t, newParent) then e == Effect(t, Status(-1))
            else if k !in t.dentry || t.dentry[k] !in t.inode then e == Effect(t, Status(-1))
            else if t.dentry[k] == 1 then e == Effect(t, Status(-6))
            else if k == k' then e == Effect(t, Status(t.dentry[k]))
            else if Directory(t, t.dentry[k]) && t.dentry[k] in Ancestors(t.dentry, {newParent})
            then e == Effect(t, Status(-5))
            else if k' !in t.dentry then e.outcome == Status(t.dentry[k])
            else if t.dentry[k'] !in t.inode then e == Effect(t, Threw)
            else if t.dentry[k'] == t.dentry[k] then e == Effect(t, Status(t.dentry[k]))
            else if Directory(t, t.dentry[k']) && !Directory(t, t.dentry[k]) then e == Effect(t, Status(-2))
            else if !Directory(t, t.dentry[k']) && Directory(t, t.dentry[k]) then e == Effect(t, Status(-3))
            else if Directory(t, t.dentry[k']) && Occupied(t, t.dentry[k']) then e == Effect(t, Status(-4))
            else e.outcome == Status(t.dentry[k])
  {
  }

  /** A rename to a free name moves the row, and the directory's link with it. */
  lemma Renamed(t: Tables, oldParent: int, oldName: string, newParent: int, newName: string, now: Time)
    requires oldParent > 0 && newParent > 0 && oldName != "" && newName != ""
    requires Directory(t, oldParent) && Directory(t, newParent) && (newParent, newName) !in t.dentry
    requires (oldParent, oldName) in t.dentry && t.dentry[(oldParent, oldName)] in t.inode
    requires var src := t.dentry[(oldParent, oldName)];
             && src != ROOT && src != oldParent && src != newParent
             && !(Directory(t, src) && src in Ancestors(t.dentry, {newParent}))
    ensures var t' := Apply(t, OpRename(oldParent, oldName, newParent, newName, now)).tables;
            var src := t.dentry[(oldParent, oldName)];
            var moved := if Directory(t, src) && oldParent != newParent then 1 else 0;
            && t'.dentry == (t.dentry - {(oldParent, oldName)})[(newParent, newName) := src]
            && OnlyRows(t, t', {src, oldParent, newParent}) && t'.symlink == t.symlink && t'.nextIno == t.nextIno
            && t'.inode[src] == t.inode[src].(ctime := now)
            && Touched(t.inode[oldParent], t'.inode[oldParent], -moved, now)
            && (oldParent != newParent ==> Touched(t.inode[newParent], t'.inode[newParent], moved, now))
  {
  }

  /** What is displaced loses its row and its links; its inode goes with the last link,
      unless a session holds it open. */
  lemma Displaced(t: Tables, k: Key, now: Time)
    requires k in t.dentry && t.dentry[k] in t.inode && t.dentry[k] != k.0
    ensures var t', dst := Displace(t, k, now), t.dentry[k];
            var links := if Directory(t, dst) then 0 else t.inode[dst].nlink - 1;
            && t'.dentry == t.dentry - {k}
            && (dst !in t'.inode <==> links == 0 && !Open(t, dst, now))
            && (dst in t'.inode ==>
                  && t'.inode[dst] == t.inode[dst].(nlink := links, ctime := now)
                  && t'.data == t.data && t'.symlink == t.symlink && t'.leases == t.leases)
            && (dst !in t'.inode ==>
                  && dst !in t'.symlink && (forall c | c in t'.data :: c.0 != dst)
                  && (forall c | c in t.data && c.0 != dst :: c in t'.data && t'.data[c] == t.data[c]))
            && (k.0 in t.inode ==>
                  t'.inode[k.0] == t.inode[k.0].(nlink := t.inode[k.0].nlink - if Directory(t, dst) then 1 else 0))
            && forall i | i in t.inode && i != dst && i != k.0 :: i in t'.inode && t'.inode[i] == t.inode[i]
  {
    var dst := t.dentry[k];
    assert Leased(t.leases, dst, now) <==> Open(t, dst, now);
  }

  // --- touch -----------------------------------------------------------------------------

  /** Touching what is there sets its times; nothing else of it changes. */
  lemma TouchedFile(t: Tables, p: Path, atime: Time, mtime: Time, now: Time)
    requires Resolve(t, ROOT, p).Found? && Resolve(t, ROOT, p).ino in t.inode
    ensures var e, i := Apply(t, OpTouch(p, atime, mtime, now)), Resolve(t, ROOT, p).ino;
            if t.inode[i].mode / 4096 % 16 == 10 then e == Effect(t, Threw)
            else
              && e.outcome == Status(i) && OnlyRows(t, e.tables, {i}) && e.tables.dentry == t.dentry
              && e.tables.inode[i] == t.inode[i].(atime := atime, mtime := mtime, ctime := now)
  {
  }

  /** Touching a free name makes an empty regular file, rw-r--r--, owned by root. */
  lemma TouchedNew(t: Tables, p: Path, atime: Time, mtime: Time, now: Time)
    requires p != [] && Resolve(t, ROOT, p).Missing? && ResolveParent(t, p).Found?
    requires t.nextIno !in t.inode && Apply(t, OpTouch(p, atime, mtime, now)).outcome != Threw
    requires ResolveParent(t, p).ino in t.inode
    ensures var e, dir, ino := Apply(t, OpTouch(p, atime, mtime, now)), ResolveParent(t, p).ino, t.nextIno;
            && e.outcome == Status(ino) && e.tables.dentry == t.dentry[(dir, p[|p| - 1]) := ino]
            && OnlyRows(t, e.tables, {ino, dir}) && e.tables.nextIno == ino + 1
            && e.tables.inode[ino] == Inode(32768 + 6 * 64 + 4 * 8 + 4, 1, 0, 0, 0, 0, atime, mtime, now)
            && Touched(t.inode[dir], e.tables.inode[dir], 0, now)
  {
  }

  // --- pwrite, truncate -------------------------------------------------------------------

  /** A write answers with its length, may make the file longer, and sets its mtime alone. */
  lemma WrittenRow(t: Tables, i: int, offset: int, bytes: seq<Byte>, chunkSize: int, now: Time)
    requires i > 0 && offset >= 0 && chunkSize > 0 && bytes != [] && i in t.inode
    ensures var e := Apply(t, OpPwrite(i, offset, bytes, chunkSize, now));
            var end, size := offset + |bytes|, t.inode[i].size;
            var longer := if end > size then end else size;
            var over := end > size && t.quotaBytes.Some? && Total(Sizes(t.inode)) + (end - size) > t.quotaBytes.value;
            if over then e == Effect(t, Threw)
            else
              && e.outcome == Status(|bytes|) && e.tables.dentry == t.dentry && e.tables.symlink == t.symlink
              && e.tables.inode == t.inode[i := t.inode[i].(size := longer, mtime := now)]
  {
    var size := Max(t.inode[i].size, offset + |bytes|);
    OverQuotaMeans(t, i, size);
    var t1 := t.(data := Written(t.data, i, chunkSize, offset, bytes),
                 inode := t.inode[i := t.inode[i].(size := size, mtime := now)]);
    ModifyEvents(t1, i);
    WriteIs(t, t1, i, offset, bytes, chunkSize, now);
  }

  lemma WriteIs(t: Tables, t1: Tables, i: int, offset: int, bytes: seq<Byte>, chunkSize: int, now: Time)
    requires i > 0 && offset >= 0 && chunkSize > 0 && bytes != [] && i in t.inode
    requires var size := Max(t.inode[i].size, offset + |bytes|);
             t1 == t.(data := Written(t.data, i, chunkSize, offset, bytes),
                      inode := t.inode[i := t.inode[i].(size := size, mtime := now)])
    ensures Apply(t, OpPwrite(i, offset, bytes, chunkSize, now)) ==
            if ResizeOverQuota(t, i, Max(t.inode[i].size, offset + |bytes|)) then Effect(t, Threw)
            else Effect(Modified(t1, i), Status(|bytes|))
  {
  }

  lemma OverQuotaMeans(t: Tables, i: int, size: int)
    requires i in t.inode
    ensures var more := size - t.inode[i].size;
            ResizeOverQuota(t, i, size) <==>
              more > 0 && t.quotaBytes.Some? && Total(Sizes(t.inode)) + more > t.quotaBytes.value
  {
  }

  lemma WriteRefused(t: Tables, i: int, offset: int, bytes: seq<Byte>, chunkSize: int, now: Time)
    requires i < 1 || offset < 0 || chunkSize < 1 || |bytes| == 0 || i !in t.inode
    ensures Apply(t, OpPwrite(i, offset, bytes, chunkSize, now)) == Effect(t, Threw)
  {
  }

  /** Truncating sets the size and both times, unless it is refused. */
  lemma TruncatedRow(t: Tables, i: int, n: int, chunkSize: int, now: Time)
    ensures var e := Apply(t, OpTruncate(i, n, chunkSize, now));
            if i < 1 || n < 0 || chunkSize < 1 then e == Effect(t, Threw)
            else if i !in t.inode then e == Effect(t, Status(-1))
            else
              var size := t.inode[i].size;
              var over := n > size && t.quotaBytes.Some? && Total(Sizes(t.inode)) + (n - size) > t.quotaBytes.value;
              if size < 0 || over then e == Effect(t, Threw)
              else
                && e.outcome == Status(i) && e.tables.dentry == t.dentry && e.tables.symlink == t.symlink
                && e.tables.inode == t.inode[i := t.inode[i].(size := n, mtime := now, ctime := now)]
  {
  }

  // --- Handles -------------------------------------------------------------------------------

  /** An inode without links that nobody holds open any more goes, with all it has. */
  ghost function DropUnused(t: Tables, i: int, now: Time): Tables {
    if i in t.inode && t.inode[i].nlink == 0 && i != 1 && !Open(t, i, now)
    then t.(inode := t.inode - {i}, symlink := t.symlink - {i},
            data := map c | c in t.data && c.0 != i :: t.data[c],
            leases := map l | l in t.leases && l.1 != i :: t.leases[l])
    else t
  }

  /** Opening counts a session's lease up, if the inode is there. */
  lemma Pinned(t: Tables, session: string, i: int, expiresAt: int)
    ensures var l, e := (session, i), Apply(t, OpPin(session, i, expiresAt));
            var held := if l in t.leases then t.leases[l].openCount else 0;
            e == if i !in t.inode then Effect(t, Threw)
                 else Effect(t.(leases := t.leases[l := Lease(held + 1, expiresAt)]), Status(1))
  {
  }

  /** Closing counts it down, and gives up the inode when it was the last. */
  lemma Unpinned(t: Tables, session: string, i: int, now: Time)
    ensures var l, e := (session, i), Apply(t, OpUnpin(session, i, now));
            var left := if l !in t.leases then t.leases
                        else if t.leases[l].openCount <= 1 then t.leases - {l}
                        else t.leases[l := Lease(t.leases[l].openCount - 1, t.leases[l].expiresAt)];
            e == Effect(DropUnused(t.(leases := left), i, now), Status(1))
  {
  }

  /** The modify event tells of a regular file's live links, and of no other inode. */
  lemma ModifyEvents(t: Tables, i: int)
    ensures Modified(t, i).feed ==
            if i in t.inode && t.inode[i].mode / 4096 % 16 == 8 then t.feed + [Modify(LinkPaths(t.dentry, i), i)]
            else t.feed
    ensures Modified(t, i).(feed := t.feed) == t
  {
  }

  /** ... which are exactly the paths that lead from the root to the inode. */
  lemma ModifiedPaths(d: Graph, dirs: set<int>, i: int, p: Path)
    requires TreeShaped(d, dirs)
    ensures p in LinkPaths(d, i) <==> p != [] && Walk(d, ROOT, p) == Some(i)
  {
    if p in LinkPaths(d, i) {
      var k :| k in d && d[k] == i && PathExpr(d, k.0, [k.1]) == Some(p);
      if !Reaches(d, ROOT, k.0) { PathExprDetached(d, k.0, [k.1]); }
      var q :| Walk(d, ROOT, q) == Some(k.0);
      PathExprFindsPath(d, dirs, k.0, [k.1], q);
      WalkSnoc(d, ROOT, q, k.1);
    }
    if p != [] && Walk(d, ROOT, p) == Some(i) {
      var q, n := p[..|p| - 1], p[|p| - 1];
      assert p == q + [n];
      WalkSnoc(d, ROOT, q, n);
      var j := Walk(d, ROOT, q).value;
      PathExprFindsPath(d, dirs, j, [n], q);
      assert (j, n) in d && d[(j, n)] == i;
    }
  }

  /** The seeded root: a directory, rwxr-xr-x, of one link. */
  lemma SeedRow(now: Time, quotaBytes: Option<int>, quotaInodes: Option<int>)
    ensures var t := Seed(now, quotaBytes, quotaInodes);
            && t.inode == map[1 := Inode(16384 + 7 * 64 + 5 * 8 + 5, 1, 0, 0, 0, 0, now, now, now)]
            && Directory(t, 1) && t.dentry == map[] && t.data == map[] && t.nextIno == 2 && t.feed == []
            && t.quotaBytes == quotaBytes && t.quotaInodes == quotaInodes
  {
  }
}
