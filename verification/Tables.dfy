/** The filesystem tables of one volume and the five compound operations of the
    Hrana server, with the two direct ones (touch and link by path). Each is one
    transaction: it either returns a status or throws and changes nothing. */
module Tables {
  import opened Wrappers
  import opened DentryGraph
  import opened Totals

  type Byte = b: int | 0 <= b < 256

  datatype Time = Time(secs: int, nsecs: int)

  datatype Inode = Inode(
    mode: int, nlink: int, uid: int, gid: int, size: int, rdev: int,
    atime: Time, mtime: Time, ctime: Time)

  /** A row of fs_open_inode, keyed by session and inode. */
  datatype Lease = Lease(openCount: int, expiresAt: int)

  /** A change-feed event. Paths are the lists of their component names. One
      Modify stands for one row per live link of the inode. */
  datatype Event =
    | Create(path: Path, ino: int)
    | Remove(path: Path, ino: int)
    | Rename(path: Path, oldPath: Option<Path>, ino: int)
    | Modify(paths: set<Path>, ino: int)

  datatype Tables = Db(
    inode: map<int, Inode>,
    dentry: Graph,
    data: map<(int, int), seq<Byte>>,
    symlink: map<int, string>,
    leases: map<(string, int), Lease>,
    nextIno: int,
    quotaBytes: Option<int>,
    quotaInodes: Option<int>,
    feed: seq<Event>)

  datatype Outcome = Threw | Status(code: int)

  datatype Effect = Effect(tables: Tables, outcome: Outcome)

  // --- Mode bits -------------------------------------------------------------

  /** mode & S_IFMT, as a number from 0 to 15 (bits 12 to 15). */
  function FileType(mode: int): int { mode / 4096 % 16 }

  predicate IsDirMode(mode: int) { FileType(mode) == 4 }
  predicate IsRegularMode(mode: int) { FileType(mode) == 8 }
  predicate IsSymlinkMode(mode: int) { FileType(mode) == 10 }

  const DEFAULT_FILE_MODE := 0x8000 + 0x1a4

  predicate IsDir(inode: map<int, Inode>, i: int) {
    i in inode && IsDirMode(inode[i].mode)
  }

  function Dirs(inode: map<int, Inode>): set<int> {
    set i | i in inode && IsDirMode(inode[i].mode)
  }

  // --- Statements ------------------------------------------------------------

  function Chtimes(inode: map<int, Inode>, i: int, now: Time): map<int, Inode> {
    if i in inode then inode[i := inode[i].(mtime := now, ctime := now)] else inode
  }

  function Chlink(inode: map<int, Inode>, i: int, delta: int): map<int, Inode> {
    if i in inode then inode[i := inode[i].(nlink := inode[i].nlink + delta)] else inode
  }

  function Chctime(inode: map<int, Inode>, i: int, now: Time): map<int, Inode> {
    if i in inode then inode[i := inode[i].(ctime := now)] else inode
  }

  ghost function Sizes(inode: map<int, Inode>): map<int, int> {
    map i | i in inode :: inode[i].size
  }

  /** The quota triggers' verdict on INSERT INTO fs_inode. */
  ghost predicate InsertOverQuota(t: Tables, size: int) {
    || (t.quotaInodes.Some? && |t.inode.Keys| + 1 > t.quotaInodes.value)
    || (size > 0 && t.quotaBytes.Some? && Total(Sizes(t.inode)) + size > t.quotaBytes.value)
  }

  /** The quota trigger's verdict on UPDATE OF size ON fs_inode. */
  ghost predicate ResizeOverQuota(t: Tables, i: int, size: int) {
    && i in t.inode && size > t.inode[i].size
    && t.quotaBytes.Some?
    && Total(Sizes(t.inode)) - t.inode[i].size + size > t.quotaBytes.value
  }

  /** INSERT INTO fs_dentry, with the create trigger. */
  ghost function InsertRow(t: Tables, k: Key, ino: int): Tables {
    var d := t.dentry[k := ino];
    t.(dentry := d,
       feed := t.feed + match PathExpr(d, k.0, [k.1])
                        case Some(p) => [Create(p, ino)]
                        case None => [])
  }

  /** DELETE FROM fs_dentry, with the remove trigger. */
  ghost function DeleteRow(t: Tables, k: Key): Tables
    requires k in t.dentry
  {
    var d := t.dentry - {k};
    t.(dentry := d,
       feed := t.feed + match PathExpr(d, k.0, [k.1])
                        case Some(p) => [Remove(p, t.dentry[k])]
                        case None => [])
  }

  /** UPDATE fs_dentry SET parent_ino, name, with the rename trigger. */
  ghost function MoveRow(t: Tables, k: Key, k': Key): Tables
    requires k in t.dentry
  {
    var ino := t.dentry[k];
    var d := (t.dentry - {k})[k' := ino];
    t.(dentry := d,
       feed := t.feed + match PathExpr(d, k'.0, [k'.1])
                        case Some(p) => [Rename(p, PathExpr(d, k.0, [k.1]), ino)]
                        case None => [])
  }

  /** The modify trigger, for an update that sets size or mtime but not mode. */
  ghost function Modified(t: Tables, i: int): Tables {
    if i in t.inode && IsRegularMode(t.inode[i].mode)
    then t.(feed := t.feed + [Modify(LinkPaths(t.dentry, i), i)])
    else t
  }

  ghost function LinkPaths(d: Graph, i: int): set<Path> {
    set k | k in d && d[k] == i && PathExpr(d, k.0, [k.1]).Some? :: PathExpr(d, k.0, [k.1]).value
  }

  /** DELETE FROM fs_inode, with the cleanup trigger. */
  function DeleteInode(t: Tables, i: int): Tables {
    t.(inode := t.inode - {i},
       data := map c | c in t.data && c.0 != i :: t.data[c],
       symlink := t.symlink - {i},
       leases := map l | l in t.leases && l.1 != i :: t.leases[l])
  }

  /** Some session holds inode `i` open at `now`. */
  predicate Leased(leases: map<(string, int), Lease>, i: int, now: Time) {
    exists l | l in leases :: l.1 == i && leases[l].openCount > 0 && leases[l].expiresAt > now.secs
  }

  // --- create_node -----------------------------------------------------------

  datatype Kind = Mkdir | Mknod | Symlink(target: string, utf8Length: nat)

  function NewNode(kind: Kind, mode: int, uid: int, gid: int, rdev: int, now: Time): Inode {
    match kind
    case Mkdir => Inode(0x4000 + mode % 4096, 2, uid, gid, 0, 0, now, now, now)
    case Mknod => Inode(mode, 1, uid, gid, 0, rdev, now, now, now)
    case Symlink(_, n) => Inode(0xa000 + 0x1ff, 1, uid, gid, n, 0, now, now, now)
  }

  ghost function CreateNode(t: Tables, kind: Kind, parent: int, name: string,
                            mode: int, uid: int, gid: int, rdev: int, now: Time): Effect {
    var node := NewNode(kind, mode, uid, gid, rdev, now);
    if (parent, name) in t.dentry then Effect(t, Status(0))
    else if !IsDir(t.inode, parent) then Effect(t, Status(-1))
    else if InsertOverQuota(t, node.size) then Effect(t, Threw)
    else
      var ino := t.nextIno;
      var t1 := InsertRow(t.(inode := t.inode[ino := node], nextIno := ino + 1), (parent, name), ino);
      var links := if kind.Mkdir? then 1 else 0;
      Effect(t1.(inode := Chtimes(Chlink(t1.inode, parent, links), parent, now),
                 symlink := if kind.Symlink? then t.symlink[ino := kind.target] else t.symlink),
             Status(ino))
  }

  // --- link ------------------------------------------------------------------

  /** The statements both kinds of hard link end with. */
  ghost function AddLink(t: Tables, source: int, k: Key, now: Time): Tables {
    var t1 := InsertRow(t, k, source);
    t1.(inode := Chtimes(Chctime(Chlink(t1.inode, source, 1), source, now), k.0, now))
  }

  ghost function Link(t: Tables, source: int, parent: int, name: string, now: Time): Effect {
    if (parent, name) in t.dentry then Effect(t, Status(0))
    else if source !in t.inode then Effect(t, Status(-1))
    else if IsDir(t.inode, source) then Effect(t, Status(-2))
    else if !IsDir(t.inode, parent) then Effect(t, Status(-1))
    else Effect(AddLink(t, source, (parent, name), now), Status(source))
  }

  // --- rename ----------------------------------------------------------------

  /** The destination is unlinked, and its inode deleted unless a lease holds it. */
  ghost function Displace(t: Tables, k: Key, now: Time): Tables
    requires k in t.dentry && t.dentry[k] in t.inode
  {
    var dst := t.dentry[k];
    var t1 := DeleteRow(t, k);
    var t2 := t1.(inode :=
                    if IsDir(t.inode, dst)
                    then Chlink(t1.inode[dst := t1.inode[dst].(nlink := 0, ctime := now)], k.0, -1)
                    else Chctime(Chlink(t1.inode, dst, -1), dst, now));
    if t2.inode[dst].nlink == 0 && !Leased(t2.leases, dst, now) then DeleteInode(t2, dst) else t2
  }

  ghost function Move(t: Tables, k: Key, k': Key, now: Time): Tables
    requires k in t.dentry
  {
    var src := t.dentry[k];
    var t1 := MoveRow(t, k, k');
    var counted := if IsDir(t.inode, src) && k.0 != k'.0
                   then Chlink(Chlink(t1.inode, k.0, -1), k'.0, 1) else t1.inode;
    t1.(inode := Chtimes(Chtimes(Chctime(counted, src, now), k.0, now), k'.0, now))
  }

  ghost function RenameNode(t: Tables, oldParent: int, oldName: string,
                            newParent: int, newName: string, now: Time): Effect {
    var k, k' := (oldParent, oldName), (newParent, newName);
    if oldParent <= 0 || newParent <= 0 || oldName == "" || newName == "" then Effect(t, Threw)
    else if !IsDir(t.inode, oldParent) || !IsDir(t.inode, newParent) then Effect(t, Status(-1))
    else if k !in t.dentry || t.dentry[k] !in t.inode then Effect(t, Status(-1))
    else
      var src := t.dentry[k];
      if src == ROOT then Effect(t, Status(-6))
      else if k == k' then Effect(t, Status(src))
      else if IsDir(t.inode, src) && src in Ancestors(t.dentry, {newParent}) then Effect(t, Status(-5))
      else if k' !in t.dentry then Effect(Move(t, k, k', now), Status(src))
      else if t.dentry[k'] !in t.inode then Effect(t, Threw) // the row is invisible to the join but still unique
      else
        var dst := t.dentry[k'];
        if dst == src then Effect(t, Status(src))
        else if IsDir(t.inode, dst) && !IsDir(t.inode, src) then Effect(t, Status(-2))
        else if !IsDir(t.inode, dst) && IsDir(t.inode, src) then Effect(t, Status(-3))
        else if IsDir(t.inode, dst) && (exists c | c in t.dentry :: c.0 == dst) then Effect(t, Status(-4))
        else
          var t1 := Displace(t, k', now);
          Effect(if k in t1.dentry then Move(t1, k, k', now) else t1, Status(src))
  }

  // --- touch and link by path -----------------------------------------------

  datatype Lookup = Found(ino: int) | Missing | NotADirectory

  /** resolve(): follow the names from inode `i`. */
  function Resolve(t: Tables, i: int, p: Path): Lookup
    decreases |p|
  {
    if p == [] then Found(i)
    else if !IsDir(t.inode, i) then NotADirectory
    else if (i, p[0]) !in t.dentry || t.dentry[(i, p[0])] !in t.inode then Missing
    else Resolve(t, t.dentry[(i, p[0])], p[1..])
  }

  /** resolveParent(): the directory that holds the last name of `p`. */
  function ResolveParent(t: Tables, p: Path): Lookup
    requires p != []
  {
    match Resolve(t, ROOT, p[..|p| - 1])
    case Found(i) => if IsDir(t.inode, i) then Found(i) else NotADirectory
    case other => other
  }

  ghost function Touch(t: Tables, p: Path, atime: Time, mtime: Time, now: Time): Effect {
    match Resolve(t, ROOT, p)
    case NotADirectory => Effect(t, Threw)
    case Found(i) =>
      if i !in t.inode || IsSymlinkMode(t.inode[i].mode) then Effect(t, Threw)
      else Effect(Modified(t.(inode := t.inode[i := t.inode[i].(atime := atime, mtime := mtime, ctime := now)]), i),
                  Status(i))
    case Missing =>
      if p == [] then Effect(t, Threw) else
      match ResolveParent(t, p)
      case Missing => Effect(t, Threw)
      case NotADirectory => Effect(t, Threw)
      case Found(parent) =>
        if InsertOverQuota(t, 0) || (parent, p[|p| - 1]) in t.dentry then Effect(t, Threw)
        else
          var ino := t.nextIno;
          var node := Inode(DEFAULT_FILE_MODE, 0, 0, 0, 0, 0, atime, mtime, now);
          var t1 := InsertRow(t.(inode := t.inode[ino := node], nextIno := ino + 1), (parent, p[|p| - 1]), ino);
          Effect(t1.(inode := Chtimes(t1.inode[ino := node.(nlink := 1)], parent, now)), Status(ino))
  }

  ghost function LinkPath(t: Tables, existing: Path, p: Path, now: Time): Effect {
    if p == [] then Effect(t, Threw)
    else
      match Resolve(t, ROOT, existing)
      case Missing => Effect(t, Threw)
      case NotADirectory => Effect(t, Threw)
      case Found(source) =>
        if source !in t.inode || IsDir(t.inode, source) || !Resolve(t, ROOT, p).Missing? then Effect(t, Threw)
        else
          match ResolveParent(t, p)
          case Missing => Effect(t, Threw)
          case NotADirectory => Effect(t, Threw)
          case Found(parent) =>
            if (parent, p[|p| - 1]) in t.dentry then Effect(t, Threw)
            else Effect(AddLink(t, source, (parent, p[|p| - 1]), now), Status(source))
  }

  // --- pwrite and truncate ---------------------------------------------------

  function Min(a: int, b: int): int { if a < b then a else b }
  function Max(a: int, b: int): int { if a < b then b else a }

  function Zeros(n: nat): seq<Byte> { seq(n, _ => 0) }

  function Chunk(data: map<(int, int), seq<Byte>>, i: int, c: int): seq<Byte> {
    if (i, c) in data then data[(i, c)] else []
  }

  /** The chunk that starts at file offset `base` after writing `bytes` at `offset`. */
  function Merged(prior: seq<Byte>, base: int, chunkSize: int, offset: int, bytes: seq<Byte>): seq<Byte>
    requires 0 < chunkSize
  {
    var length := if offset <= base && base + chunkSize <= offset + |bytes| then chunkSize
                  else Max(|prior|, Min(offset + |bytes| - base, chunkSize));
    seq(length, j requires 0 <= j < length =>
      if offset <= base + j < offset + |bytes| && j < chunkSize then bytes[base + j - offset]
      else if j < |prior| then prior[j]
      else 0)
  }

  /** fs_data when the chunks before `next` that a write meets have been written. */
  function WrittenUpTo(data: map<(int, int), seq<Byte>>, i: int, chunkSize: int,
                       offset: int, bytes: seq<Byte>, next: int): map<(int, int), seq<Byte>>
    requires 0 <= offset && 0 < chunkSize
  {
    data + RowsWritten(data, i, chunkSize, offset, bytes, next)
  }

  function RowsWritten(data: map<(int, int), seq<Byte>>, i: int, chunkSize: int,
                       offset: int, bytes: seq<Byte>, next: int): (r: map<(int, int), seq<Byte>>)
    requires 0 <= offset && 0 < chunkSize
    ensures forall k :: k in r <==> k.0 == i && offset / chunkSize <= k.1 < next
    ensures forall k | k in r :: r[k] == Merged(Chunk(data, i, k.1), k.1 * chunkSize, chunkSize, offset, bytes)
  {
    map c | offset / chunkSize <= c < next
          :: (i, c) := Merged(Chunk(data, i, c), c * chunkSize, chunkSize, offset, bytes)
  }

  /** fs_data after writing `bytes` at `offset`: only the chunks the range meets change. */
  function Written(data: map<(int, int), seq<Byte>>, i: int, chunkSize: int,
                   offset: int, bytes: seq<Byte>): map<(int, int), seq<Byte>>
    requires 0 <= offset && 0 < chunkSize && |bytes| > 0
  {
    WrittenUpTo(data, i, chunkSize, offset, bytes, (offset + |bytes| - 1) / chunkSize + 1)
  }

  ghost function Pwrite(t: Tables, i: int, offset: int, bytes: seq<Byte>, chunkSize: int, now: Time): Effect {
    if i <= 0 || offset < 0 || chunkSize <= 0 || bytes == [] || i !in t.inode then Effect(t, Threw)
    else
      var size := Max(t.inode[i].size, offset + |bytes|);
      if ResizeOverQuota(t, i, size) then Effect(t, Threw)
      else Effect(Modified(t.(data := Written(t.data, i, chunkSize, offset, bytes),
                              inode := t.inode[i := t.inode[i].(size := size, mtime := now)]), i),
                  Status(|bytes|))
  }

  /** fs_data after cutting inode `i` to `n` bytes, 0 < n. */
  function Cut(data: map<(int, int), seq<Byte>>, i: int, chunkSize: int, n: int): map<(int, int), seq<Byte>>
    requires 0 < chunkSize && 0 < n
  {
    var last, tail := (n - 1) / chunkSize, n % chunkSize;
    map k | k in data && !(k.0 == i && k.1 > last)
          :: if k == (i, last) && 0 < tail < |data[k]| then data[k][..tail] else data[k]
  }

  /** The index of the last chunk of a file of `size` bytes, or -1. */
  function FinalChunk(size: int, chunkSize: int): int
    requires chunkSize > 0
  {
    if size == 0 then -1 else (size - 1) / chunkSize
  }

  /** How much of chunk `c` a file of `n` bytes fills, up to its last chunk. */
  function Filled(c: int, n: int, chunkSize: int): int
    requires chunkSize > 0
  {
    if c == (n - 1) / chunkSize then (n - 1) % chunkSize + 1 else chunkSize
  }

  /** The old final row, if there is one, filled up with zeros. */
  function Padded(data: map<(int, int), seq<Byte>>, i: int, chunkSize: int, size: int, n: int): map<(int, int),
                  seq<Byte>>
    requires 0 < chunkSize && 0 <= size < n
  {
    var k := (i, FinalChunk(size, chunkSize));
    var needed := Filled(k.1, n, chunkSize);
    if size > 0 && k in data && |data[k]| < needed
    then data[k := data[k] + Zeros(needed - |data[k]|)] else data
  }

  /** fs_data when the zero chunks from `from` up to `to` have been added. */
  function ZeroedUpTo(data: map<(int, int), seq<Byte>>, i: int, chunkSize: int, n: int, from: int,
                      to: int): map<(int, int), seq<Byte>>
    requires 0 < chunkSize
  {
    data + RowsZeroed(i, chunkSize, n, from, to)
  }

  function RowsZeroed(i: int, chunkSize: int, n: int, from: int, to: int): (r: map<(int, int), seq<Byte>>)
    requires 0 < chunkSize
    ensures forall k :: k in r <==> k.0 == i && from <= k.1 < to
    ensures forall k | k in r :: r[k] == Zeros(Filled(k.1, n, chunkSize))
  {
    map c | from <= c < to :: (i, c) := Zeros(Filled(c, n, chunkSize))
  }

  /** fs_data after extending inode `i` from `size` to `n` bytes, size < n. */
  function Extended(data: map<(int, int), seq<Byte>>, i: int, chunkSize: int, size: int,
                    n: int): map<(int, int), seq<Byte>>
    requires 0 < chunkSize && 0 <= size < n
  {
    ZeroedUpTo(Padded(data, i, chunkSize, size, n), i, chunkSize, n,
               FinalChunk(size, chunkSize) + 1, (n - 1) / chunkSize + 1)
  }

  function Truncated(data: map<(int, int), seq<Byte>>, i: int, chunkSize: int, size: int,
                     n: int): map<(int, int), seq<Byte>>
    requires 0 < chunkSize && 0 <= size && 0 <= n
  {
    if n == 0 then map k | k in data && k.0 != i :: data[k]
    else if n < size then Cut(data, i, chunkSize, n)
    else if n > size then Extended(data, i, chunkSize, size, n)
    else data
  }

  ghost function Truncate(t: Tables, i: int, n: int, chunkSize: int, now: Time): Effect {
    if i <= 0 || n < 0 || chunkSize <= 0 then Effect(t, Threw)
    else if i !in t.inode then Effect(t, Status(-1))
    else if t.inode[i].size < 0 then Effect(t, Threw)
    else if ResizeOverQuota(t, i, n) then Effect(t, Threw)
    else
      var size := t.inode[i].size;
      Effect(Modified(t.(data := Truncated(t.data, i, chunkSize, size, n),
                         inode := t.inode[i := t.inode[i].(size := n, mtime := now, ctime := now)]), i),
             Status(i))
  }

  // --- Open-handle leases ------------------------------------------------------

  /** A FUSE session opens a handle: the lease is counted up if the inode exists. */
  ghost function Pin(t: Tables, session: string, i: int, expiresAt: int): Effect {
    if i !in t.inode then Effect(t, Threw)
    else
      var count := if (session, i) in t.leases then t.leases[(session, i)].openCount else 0;
      Effect(t.(leases := t.leases[(session, i) := Lease(count + 1, expiresAt)]), Status(1))
  }

  function Released(leases: map<(string, int), Lease>, session: string, i: int): map<(string, int), Lease> {
    var l := (session, i);
    if l !in leases then leases
    else if leases[l].openCount - 1 <= 0 then leases - {l}
    else leases[l := leases[l].(openCount := leases[l].openCount - 1)]
  }

  /** A session closes a handle: the lease is counted down, and an inode without
      links that no lease holds any more is deleted. */
  ghost function Unpin(t: Tables, session: string, i: int, now: Time): Effect {
    var t1 := t.(leases := Released(t.leases, session, i));
    Effect(if i in t.inode && t.inode[i].nlink == 0 && i != ROOT && !Leased(t1.leases, i, now)
           then DeleteInode(t1, i) else t1,
           Status(1))
  }

  // --- Runs ------------------------------------------------------------------

  datatype Op =
    | OpCreate(kind: Kind, parent: int, name: string, mode: int, uid: int, gid: int, rdev: int, now: Time)
    | OpLink(source: int, parent: int, name: string, now: Time)
    | OpRename(oldParent: int, oldName: string, newParent: int, newName: string, now: Time)
    | OpTouch(path: Path, atime: Time, mtime: Time, now: Time)
    | OpLinkPath(existing: Path, path: Path, now: Time)
    | OpPwrite(ino: int, offset: int, bytes: seq<Byte>, chunkSize: int, now: Time)
    | OpTruncate(ino: int, size: int, chunkSize: int, now: Time)
    | OpPin(session: string, ino: int, expiresAt: int)
    | OpUnpin(session: string, ino: int, now: Time)

  ghost function Apply(t: Tables, op: Op): Effect {
    match op
    case OpCreate(kind, parent, name, mode, uid, gid, rdev, now) =>
      CreateNode(t, kind, parent, name, mode, uid, gid, rdev, now)
    case OpLink(source, parent, name, now) => Link(t, source, parent, name, now)
    case OpRename(op, on, np, nn, now) => RenameNode(t, op, on, np, nn, now)
    case OpTouch(p, atime, mtime, now) => Touch(t, p, atime, mtime, now)
    case OpLinkPath(existing, p, now) => LinkPath(t, existing, p, now)
    case OpPwrite(i, offset, bytes, chunkSize, now) => Pwrite(t, i, offset, bytes, chunkSize, now)
    case OpTruncate(i, n, chunkSize, now) => Truncate(t, i, n, chunkSize, now)
    case OpPin(session, i, expiresAt) => Pin(t, session, i, expiresAt)
    case OpUnpin(session, i, now) => Unpin(t, session, i, now)
  }

  ghost function Run(t: Tables, ops: seq<Op>): Tables
    decreases |ops|
  {
    if ops == [] then t else Run(Apply(t, ops[0]).tables, ops[1..])
  }

  /** A fresh volume: schema initialisation seeds inode 1, rwxr-xr-x, one link. */
  function Seed(now: Time, quotaBytes: Option<int>, quotaInodes: Option<int>): Tables {
    Db(map[ROOT := Inode(0x41ed, 1, 0, 0, 0, 0, now, now, now)],
       map[], map[], map[], map[], 2, quotaBytes, quotaInodes, [])
  }
}
