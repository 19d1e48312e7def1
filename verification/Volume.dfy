/** The compound operations as the server runs them: statement by statement over
    the tables, inside one transaction. Each is proved to have exactly the effect
    the specification gives it. */
module Volume {
  import opened Wrappers
  import opened DentryGraph
  import opened Totals
  import opened Tables
  import opened ChunkStore

  class FsVolume {
    var inode: map<int, Inode>
    var dentry: Graph
    var data: map<(int, int), seq<Byte>>
    var symlink: map<int, string>
    var leases: map<(string, int), Lease>
    var nextIno: int
    var quotaBytes: Option<int>
    var quotaInodes: Option<int>
    /** Written by the triggers only. */
    ghost var feed: seq<Event>

    ghost function View(): Tables
      reads this
    {
      Db(inode, dentry, data, symlink, leases, nextIno, quotaBytes, quotaInodes, feed)
    }

    /** Schema initialisation on an empty database. */
    constructor (now: Time, quotaBytes: Option<int>, quotaInodes: Option<int>)
      ensures View() == Seed(now, quotaBytes, quotaInodes)
    {
      inode := map[ROOT := Inode(0x41ed, 1, 0, 0, 0, 0, now, now, now)];
      dentry, data, symlink, leases := map[], map[], map[], map[];
      nextIno := 2;
      this.quotaBytes, this.quotaInodes := quotaBytes, quotaInodes;
      feed := [];
    }

    // --- Statements with triggers ---------------------------------------------

    method InsertDentry(k: Key, ino: int)
      modifies this`dentry, this`feed
      ensures View() == InsertRow(old(View()), k, ino)
    {
      dentry := dentry[k := ino];
      feed := feed + match PathExpr(dentry, k.0, [k.1])
                     case Some(p) => [Create(p, ino)]
                     case None => [];
    }

    method DeleteDentry(k: Key)
      requires k in dentry
      modifies this`dentry, this`feed
      ensures View() == DeleteRow(old(View()), k)
    {
      ghost var ino := dentry[k];
      dentry := dentry - {k};
      feed := feed + match PathExpr(dentry, k.0, [k.1])
                     case Some(p) => [Remove(p, ino)]
                     case None => [];
    }

    method UpdateDentry(k: Key, k': Key)
      requires k in dentry
      modifies this`dentry, this`feed
      ensures View() == MoveRow(old(View()), k, k')
    {
      var ino := dentry[k];
      dentry := (dentry - {k})[k' := ino];
      feed := feed + match PathExpr(dentry, k'.0, [k'.1])
                     case Some(p) => [Event.Rename(p, PathExpr(dentry, k.0, [k.1]), ino)]
                     case None => [];
    }

    method DeleteInodeRow(i: int)
      modifies this`inode, this`data, this`symlink, this`leases
      ensures View() == DeleteInode(old(View()), i)
    {
      inode := inode - {i};
      data := map c | c in data && c.0 != i :: data[c];
      symlink := symlink - {i};
      leases := map l | l in leases && l.1 != i :: leases[l];
    }

    /** The trigger on updates of size or mtime. */
    ghost method NoteModified(i: int)
      modifies this`feed
      ensures View() == Modified(old(View()), i)
    {
      if i in inode && IsRegularMode(inode[i].mode) {
        feed := feed + [Modify(LinkPaths(dentry, i), i)];
      }
    }

    /** SELECT sum(size) FROM fs_inode. */
    method SumSizes() returns (sum: int)
      ensures sum == Total(Sizes(inode))
    {
      sum := 0;
      var left := inode.Keys;
      ghost var rest := Sizes(inode);
      while left != {}
        invariant left <= inode.Keys && rest == map i | i in left :: inode[i].size
        invariant sum + Total(rest) == Total(Sizes(inode))
        decreases left
      {
        ghost var some := Pick(left);
        var i: int :| i in left;
        TotalWithout(rest, i);
        sum := sum + inode[i].size;
        rest := rest - {i};
        left := left - {i};
      }
    }

    /** The BEFORE INSERT quota trigger. */
    method RejectsInsert(size: int) returns (over: bool)
      ensures over <==> InsertOverQuota(View(), size)
    {
      if quotaInodes.Some? && |inode.Keys| + 1 > quotaInodes.value { return true; }
      if size > 0 && quotaBytes.Some? {
        var sum := SumSizes();
        return sum + size > quotaBytes.value;
      }
      return false;
    }

    /** The BEFORE UPDATE OF size quota trigger. */
    method RejectsResize(i: int, size: int) returns (over: bool)
      ensures over <==> ResizeOverQuota(View(), i, size)
    {
      if i in inode && size > inode[i].size && quotaBytes.Some? {
        var sum := SumSizes();
        return sum - inode[i].size + size > quotaBytes.value;
      }
      return false;
    }

    // --- Compound operations ----------------------------------------------------

    method CreateNode(kind: Kind, parent: int, name: string, mode: int, uid: int, gid: int, rdev: int, now: Time)
      returns (outcome: Outcome)
      modifies this
      ensures Effect(View(), outcome) == Apply(old(View()), OpCreate(kind, parent, name, mode, uid, gid, rdev, now))
    {
      if (parent, name) in dentry { return Status(0); }
      if !IsDir(inode, parent) { return Status(-1); }
      var node;
      match kind {
        case Mkdir => node := Inode(0x4000 + mode % 4096, 2, uid, gid, 0, 0, now, now, now);
        case Mknod => node := Inode(mode, 1, uid, gid, 0, rdev, now, now, now);
        case Symlink(_, n) => node := Inode(0xa000 + 0x1ff, 1, uid, gid, n, 0, now, now, now);
      }
      var over := RejectsInsert(node.size);
      if over { return Threw; }
      var ino := nextIno;
      inode, nextIno := inode[ino := node], nextIno + 1;
      InsertDentry((parent, name), ino);
      if kind.Symlink? { symlink := symlink[ino := kind.target]; }
      if kind.Mkdir? {
        inode := Chlink(inode, parent, 1);
      } else {
        assert Chlink(inode, parent, 0) == inode;
      }
      inode := Chtimes(inode, parent, now);
      return Status(ino);
    }

    method Link(source: int, parent: int, name: string, now: Time) returns (outcome: Outcome)
      modifies this
      ensures Effect(View(), outcome) == Apply(old(View()), OpLink(source, parent, name, now))
    {
      if (parent, name) in dentry { return Status(0); }
      if source !in inode { return Status(-1); }
      if IsDir(inode, source) { return Status(-2); }
      if !IsDir(inode, parent) { return Status(-1); }
      InsertDentry((parent, name), source);
      inode := Chctime(Chlink(inode, source, 1), source, now);
      inode := Chtimes(inode, parent, now);
      return Status(source);
    }

    /** The part of rename that unlinks an existing destination. */
    method DisplaceDestination(k: Key, now: Time)
      requires k in dentry && dentry[k] in inode
      modifies this
      ensures View() == Displace(old(View()), k, now)
    {
      var dst := dentry[k];
      var directory := IsDir(inode, dst);
      DeleteDentry(k);
      if directory {
        inode := inode[dst := inode[dst].(nlink := 0, ctime := now)];
        inode := Chlink(inode, k.0, -1);
      } else {
        inode := Chctime(Chlink(inode, dst, -1), dst, now);
      }
      if inode[dst].nlink == 0 && !Leased(leases, dst, now) { DeleteInodeRow(dst); }
    }

    method MoveSource(k: Key, k': Key, now: Time)
      requires k in dentry
      modifies this
      ensures View() == Move(old(View()), k, k', now)
    {
      var src := dentry[k];
      var directory := IsDir(inode, src);
      UpdateDentry(k, k');
      if directory && k.0 != k'.0 {
        inode := Chlink(inode, k.0, -1);
        inode := Chlink(inode, k'.0, 1);
      }
      inode := Chctime(inode, src, now);
      inode := Chtimes(inode, k.0, now);
      if k.0 != k'.0 { inode := Chtimes(inode, k'.0, now); }
    }

    method Rename(oldParent: int, oldName: string, newParent: int, newName: string, now: Time)
      returns (outcome: Outcome)
      modifies this
      ensures Effect(View(), outcome) == Apply(old(View()), OpRename(oldParent, oldName, newParent, newName, now))
    {
      var k, k' := (oldParent, oldName), (newParent, newName);
      if oldParent <= 0 || newParent <= 0 || oldName == "" || newName == "" { return Threw; }
      if !IsDir(inode, oldParent) || !IsDir(inode, newParent) { return Status(-1); }
      if k !in dentry || dentry[k] !in inode { return Status(-1); }
      var src := dentry[k];
      if src == ROOT { return Status(-6); }
      if k == k' { return Status(src); }
      if IsDir(inode, src) && src in Ancestors(dentry, {newParent}) { return Status(-5); }
      if k' in dentry {
        if dentry[k'] !in inode { return Threw; }
        var dst := dentry[k'];
        if dst == src { return Status(src); }
        if IsDir(inode, dst) && !IsDir(inode, src) { return Status(-2); }
        if !IsDir(inode, dst) && IsDir(inode, src) { return Status(-3); }
        if IsDir(inode, dst) && (exists c | c in dentry :: c.0 == dst) { return Status(-4); }
        DisplaceDestination(k', now);
      }
      MoveSource(k, k', now);
      return Status(src);
    }

    // --- Direct operations by path ------------------------------------------------

    /** Follows the names from the root. */
    method ResolvePath(p: Path) returns (r: Lookup)
      ensures r == Resolve(View(), ROOT, p)
    {
      var current, n := ROOT, 0;
      while n < |p|
        invariant n <= |p|
        invariant Resolve(View(), ROOT, p) == Resolve(View(), current, p[n..])
      {
        if !IsDir(inode, current) { return NotADirectory; }
        if (current, p[n]) !in dentry || dentry[(current, p[n])] !in inode { return Missing; }
        assert p[n..][1..] == p[n + 1..];
        current := dentry[(current, p[n])];
        n := n + 1;
      }
      return Found(current);
    }

    method ResolveParentOf(p: Path) returns (r: Lookup)
      requires p != []
      ensures r == ResolveParent(View(), p)
    {
      r := ResolvePath(p[..|p| - 1]);
      if r.Found? && !IsDir(inode, r.ino) { r := NotADirectory; }
    }

    method Touch(p: Path, atime: Time, mtime: Time, now: Time) returns (outcome: Outcome)
      modifies this
      ensures Effect(View(), outcome) == Apply(old(View()), OpTouch(p, atime, mtime, now))
    {
      var found := ResolvePath(p);
      if found.NotADirectory? { return Threw; }
      if found.Found? {
        var i := found.ino;
        if i !in inode || IsSymlinkMode(inode[i].mode) { return Threw; }
        inode := inode[i := inode[i].(atime := atime, mtime := mtime, ctime := now)];
        NoteModified(i);
        return Status(i);
      }
      if p == [] { return Threw; }
      var parent := ResolveParentOf(p);
      if !parent.Found? { return Threw; }
      var k := (parent.ino, p[|p| - 1]);
      var over := RejectsInsert(0);
      if over || k in dentry { return Threw; }
      var ino := nextIno;
      var node := Inode(DEFAULT_FILE_MODE, 0, 0, 0, 0, 0, atime, mtime, now);
      inode, nextIno := inode[ino := node], nextIno + 1;
      InsertDentry(k, ino);
      inode := inode[ino := inode[ino].(nlink := 1)];
      inode := Chtimes(inode, parent.ino, now);
      return Status(ino);
    }

    method LinkPath(existing: Path, p: Path, now: Time) returns (outcome: Outcome)
      modifies this
      ensures Effect(View(), outcome) == Apply(old(View()), OpLinkPath(existing, p, now))
    {
      if p == [] { return Threw; }
      var source := ResolvePath(existing);
      if !source.Found? || source.ino !in inode || IsDir(inode, source.ino) { return Threw; }
      var there := ResolvePath(p);
      if !there.Missing? { return Threw; }
      var parent := ResolveParentOf(p);
      if !parent.Found? { return Threw; }
      var k := (parent.ino, p[|p| - 1]);
      if k in dentry { return Threw; }
      InsertDentry(k, source.ino);
      inode := Chctime(Chlink(inode, source.ino, 1), source.ino, now);
      inode := Chtimes(inode, parent.ino, now);
      return Status(source.ino);
    }

    // --- Data operations -------------------------------------------------------------

    method Pwrite(i: int, offset: int, bytes: seq<Byte>, chunkSize: int, now: Time) returns (outcome: Outcome)
      modifies this
      ensures Effect(View(), outcome) == Apply(old(View()), OpPwrite(i, offset, bytes, chunkSize, now))
    {
      if i <= 0 || offset < 0 || chunkSize <= 0 || bytes == [] { return Threw; }
      if i !in inode { return Threw; }
      var saved := data;
      ghost var before := View();
      WriteChunks(i, offset, bytes, chunkSize);
      var size := Max(inode[i].size, offset + |bytes|);
      var over := RejectsResize(i, size);
      assert over <==> ResizeOverQuota(before, i, size);
      if over {
        data := saved;
        assert View() == before;
        return Threw;
      }
      inode := inode[i := inode[i].(size := size, mtime := now)];
      assert View() == before.(data := Written(before.data, i, chunkSize, offset, bytes), inode := inode);
      NoteModified(i);
      return Status(|bytes|);
    }

    /** The chunk loop of pwrite. */
    method WriteChunks(i: int, offset: int, bytes: seq<Byte>, chunkSize: int)
      requires 0 <= offset && 0 < chunkSize && bytes != []
      modifies this`data
      ensures data == Written(old(data), i, chunkSize, offset, bytes)
    {
      ghost var saved := data;
      var written := 0;
      ghost var next := offset / chunkSize;
      WrittenNone(saved, i, chunkSize, offset, bytes);
      while written < |bytes|
        invariant 0 <= written <= |bytes|
        invariant Progress(offset, |bytes|, chunkSize, written, next)
        invariant data == WrittenUpTo(saved, i, chunkSize, offset, bytes, next)
      {
        written := WriteOneChunk(i, offset, bytes, chunkSize, written, saved, next);
        next := next + 1;
      }
    }

    /** One iteration: a whole chunk replaces the row, a part is copied into it. */
    method WriteOneChunk(i: int, offset: int, bytes: seq<Byte>, chunkSize: int, written: int,
                         ghost saved: map<(int, int), seq<Byte>>, ghost next: int)
      returns (written': int)
      requires 0 <= offset && 0 < chunkSize && 0 <= written < |bytes|
      requires Progress(offset, |bytes|, chunkSize, written, next)
      requires data == WrittenUpTo(saved, i, chunkSize, offset, bytes, next)
      modifies this`data
      ensures written < written' <= |bytes|
      ensures Progress(offset, |bytes|, chunkSize, written', next + 1)
      ensures data == WrittenUpTo(saved, i, chunkSize, offset, bytes, next + 1)
    {
      var chunk, within := (offset + written) / chunkSize, (offset + written) % chunkSize;
      var toWrite := Min(chunkSize - within, |bytes| - written);
      LoopStep(saved, i, chunkSize, offset, bytes, written, next, within, toWrite);
      var part := bytes[written..written + toWrite];
      if toWrite == chunkSize {
        data := data[(i, chunk) := part];
      } else {
        data := data[(i, chunk) := Spliced(Chunk(data, i, chunk), within, part)];
      }
      written' := written + toWrite;
    }

    method Truncate(i: int, n: int, chunkSize: int, now: Time) returns (outcome: Outcome)
      modifies this
      ensures Effect(View(), outcome) == Apply(old(View()), OpTruncate(i, n, chunkSize, now))
    {
      if i <= 0 || n < 0 || chunkSize <= 0 { return Threw; }
      if i !in inode { return Status(-1); }
      var size := inode[i].size;
      if size < 0 { return Threw; }
      var saved := data;
      if n == 0 {
        data := map k | k in data && k.0 != i :: data[k];
      } else if n < size {
        CutRowsTo(i, n, chunkSize);
      } else if n > size {
        ExtendRowsTo(i, size, n, chunkSize);
      }
      var over := RejectsResize(i, n);
      if over {
        data := saved;
        return Threw;
      }
      inode := inode[i := inode[i].(size := n, mtime := now, ctime := now)];
      NoteModified(i);
      return Status(i);
    }

    method CutRowsTo(i: int, n: int, chunkSize: int)
      requires 0 < n && 0 < chunkSize
      modifies this`data
      ensures data == Cut(old(data), i, chunkSize, n)
    {
      var last := (n - 1) / chunkSize;
      data := map k | k in data && !(k.0 == i && k.1 > last) :: data[k];
      var finalLength := n % chunkSize;
      if finalLength > 0 && (i, last) in data {
        var row := data[(i, last)];
        if |row| > finalLength { data := data[(i, last) := row[..finalLength]]; }
      }
    }

    method ExtendRowsTo(i: int, size: int, n: int, chunkSize: int)
      requires 0 <= size < n && 0 < chunkSize
      modifies this`data
      ensures data == Extended(old(data), i, chunkSize, size, n)
    {
      var last := (n - 1) / chunkSize;
      var final := if size == 0 then -1 else (size - 1) / chunkSize;
      FinalBeforeLast(size, n, chunkSize);
      if size > 0 && (i, final) in data {
        var row := data[(i, final)];
        var needed := Filled(final, n, chunkSize);
        if |row| < needed { data := data[(i, final) := row + Zeros(needed - |row|)]; }
      }
      ghost var padded := data;
      assert padded == Padded(old(data), i, chunkSize, size, n);
      ZeroedNone(padded, i, chunkSize, n, final + 1);
      for chunk := final + 1 to last + 1
        invariant data == ZeroedUpTo(padded, i, chunkSize, n, final + 1, chunk)
      {
        ZeroedOneMore(padded, i, chunkSize, n, final + 1, chunk);
        data := data[(i, chunk) := Zeros(Filled(chunk, n, chunkSize))];
      }
    }
  }

  lemma FinalBeforeLast(size: int, n: int, chunkSize: int)
    requires 0 <= size < n && 0 < chunkSize
    ensures FinalChunk(size, chunkSize) <= (n - 1) / chunkSize
  {
    if size > 0 { DivMono(size - 1, n - 1, chunkSize); } else { DivMono(0, n - 1, chunkSize); }
  }

  /** A zeroed row long enough for both, with `existing` and then `part` copied in. */
  function Spliced(existing: seq<Byte>, within: nat, part: seq<Byte>): seq<Byte> {
    seq(Max(|existing|, within + |part|), j requires 0 <= j < Max(|existing|, within + |part|) =>
      if within <= j < within + |part| then part[j - within]
      else if j < |existing| then existing[j]
      else 0)
  }

  lemma SplicedIsMerged(existing: seq<Byte>, base: int, chunkSize: int, offset: int, bytes: seq<Byte>, written: int)
    requires 0 <= offset && 0 < chunkSize && 0 <= written < |bytes|
    requires 0 <= offset + written - base < chunkSize && (0 < written ==> offset + written == base)
    ensures var within := offset + written - base;
            Merged(existing, base, chunkSize, offset, bytes) ==
            NextRow(existing, within, bytes[written..written + Min(chunkSize - within, |bytes| - written)], chunkSize)
  {
    var within := offset + written - base;
    var toWrite := Min(chunkSize - within, |bytes| - written);
    if toWrite == chunkSize {
      MergedWhole(existing, base, chunkSize, offset, bytes, written);
    } else {
      MergedPart(existing, base, chunkSize, offset, bytes, written, toWrite);
    }
  }

  lemma MergedWhole(existing: seq<Byte>, base: int, chunkSize: int, offset: int, bytes: seq<Byte>, written: int)
    requires 0 < chunkSize && 0 <= written && base == offset + written && written + chunkSize <= |bytes|
    ensures Merged(existing, base, chunkSize, offset, bytes) == bytes[written..written + chunkSize]
  {
  }

  lemma MergedPart(existing: seq<Byte>, base: int, chunkSize: int, offset: int, bytes: seq<Byte>, written: int,
                   toWrite: int)
    requires 0 < chunkSize && 0 <= written < |bytes| && (0 < written ==> offset + written == base)
    requires 0 <= offset + written - base && 0 < toWrite < chunkSize
    requires toWrite == Min(chunkSize - (offset + written - base), |bytes| - written)
    ensures Merged(existing, base, chunkSize, offset, bytes)
         == Spliced(existing, offset + written - base, bytes[written..written + toWrite])
  {
    var a := Merged(existing, base, chunkSize, offset, bytes);
    var b := Spliced(existing, offset + written - base, bytes[written..written + toWrite]);
    assert |a| == |b|;
    forall j | 0 <= j < |a| ensures a[j] == b[j] { }
  }

  /** The row a loop iteration stores. */
  function NextRow(existing: seq<Byte>, within: nat, part: seq<Byte>, chunkSize: int): seq<Byte> {
    if |part| == chunkSize then part else Spliced(existing, within, part)
  }

  /** How far the loop has come: `next` is the chunk it will write next. */
  predicate Progress(offset: int, length: int, chunkSize: int, written: int, next: int)
    requires chunkSize > 0
  {
    && offset / chunkSize <= next
    && (written < length ==> next == (offset + written) / chunkSize)
    && (0 < written < length ==> offset + written == next * chunkSize)
    && (written == length ==> next == (offset + length - 1) / chunkSize + 1)
  }

  lemma ProgressStep(offset: int, length: int, chunkSize: int, written: int, next: int)
    requires 0 <= offset && 0 < chunkSize && 0 <= written < length
    requires Progress(offset, length, chunkSize, written, next)
    ensures 0 <= (offset + written) % chunkSize < chunkSize
    ensures Progress(offset, length, chunkSize,
                     written + Min(chunkSize - (offset + written) % chunkSize, length - written), next + 1)
  {
    AfterChunk(offset, length, chunkSize, written,
               Min(chunkSize - (offset + written) % chunkSize, length - written));
  }

  lemma StepRow(existing: seq<Byte>, chunkSize: int, offset: int, bytes: seq<Byte>, written: int, next: int)
    requires 0 <= offset && 0 < chunkSize && 0 <= written < |bytes|
    requires Progress(offset, |bytes|, chunkSize, written, next)
    ensures 0 <= (offset + written) % chunkSize < chunkSize
    ensures var within := (offset + written) % chunkSize;
            NextRow(existing, within, bytes[written..written + Min(chunkSize - within, |bytes| - written)], chunkSize)
            == Merged(existing, next * chunkSize, chunkSize, offset, bytes)
  {
    DivMod(offset + written, chunkSize);
    SplicedIsMerged(existing, next * chunkSize, chunkSize, offset, bytes, written);
  }

  /** One iteration adds exactly the merged row of its chunk. */
  lemma ChunkStep(data: map<(int, int), seq<Byte>>, i: int, chunkSize: int,
                  offset: int, bytes: seq<Byte>, written: int, next: int)
    requires 0 <= offset && 0 < chunkSize && 0 <= written < |bytes|
    requires Progress(offset, |bytes|, chunkSize, written, next)
    ensures 0 <= (offset + written) % chunkSize < chunkSize
    ensures var within := (offset + written) % chunkSize;
            var part := bytes[written..written + Min(chunkSize - within, |bytes| - written)];
            WrittenUpTo(data, i, chunkSize, offset, bytes, next)
              [(i, next) := NextRow(Chunk(data, i, next), within, part, chunkSize)]
            == WrittenUpTo(data, i, chunkSize, offset, bytes, next + 1)
    ensures Chunk(WrittenUpTo(data, i, chunkSize, offset, bytes, next), i, next) == Chunk(data, i, next)
  {
    StepRow(Chunk(data, i, next), chunkSize, offset, bytes, written, next);
    WrittenOneMore(data, i, chunkSize, offset, bytes, next);
    NotYetWritten(data, i, chunkSize, offset, bytes, next);
  }

  /** The same for the loop's own variables. */
  lemma LoopStep(saved: map<(int, int), seq<Byte>>, i: int, chunkSize: int, offset: int, bytes: seq<Byte>,
                 written: int, next: int, within: int, toWrite: int)
    requires 0 <= offset && 0 < chunkSize && 0 <= written < |bytes|
    requires Progress(offset, |bytes|, chunkSize, written, next)
    requires within == (offset + written) % chunkSize && toWrite == Min(chunkSize - within, |bytes| - written)
    ensures 0 <= within && 0 < toWrite && written + toWrite <= |bytes|
    ensures next == (offset + written) / chunkSize
    ensures Progress(offset, |bytes|, chunkSize, written + toWrite, next + 1)
    ensures var data := WrittenUpTo(saved, i, chunkSize, offset, bytes, next);
            var part := bytes[written..written + toWrite];
            data[(i, next) := if toWrite == chunkSize then part else Spliced(Chunk(data, i, next), within, part)]
            == WrittenUpTo(saved, i, chunkSize, offset, bytes, next + 1)
  {
    ChunkStep(saved, i, chunkSize, offset, bytes, written, next);
    ProgressStep(offset, |bytes|, chunkSize, written, next);
    assert |bytes[written..written + toWrite]| == toWrite;
  }

  lemma WrittenNone(data: map<(int, int), seq<Byte>>, i: int, chunkSize: int, offset: int, bytes: seq<Byte>)
    requires 0 <= offset && 0 < chunkSize
    ensures WrittenUpTo(data, i, chunkSize, offset, bytes, offset / chunkSize) == data
  {
  }

  lemma ZeroedNone(data: map<(int, int), seq<Byte>>, i: int, chunkSize: int, n: int, from: int)
    requires 0 < chunkSize
    ensures ZeroedUpTo(data, i, chunkSize, n, from, from) == data
  {
  }

  lemma NotYetWritten(data: map<(int, int), seq<Byte>>, i: int, chunkSize: int,
                      offset: int, bytes: seq<Byte>, c: int)
    requires 0 <= offset && 0 < chunkSize
    ensures Chunk(WrittenUpTo(data, i, chunkSize, offset, bytes, c), i, c) == Chunk(data, i, c)
  {
  }

  /** The rows of an overlay: those of the range come from it, the others from below. */
  lemma OverlayRow(data: map<(int, int), seq<Byte>>, over: map<(int, int), seq<Byte>>, i: int, from: int, to: int,
                   row: seq<Byte>, k: (int, int))
    requires from <= to && forall x :: x in over <==> x.0 == i && from <= x.1 < to
    ensures var a := (data + over)[(i, to) := row];
            && (k in a <==> k in data || (k.0 == i && from <= k.1 <= to))
            && (k in a ==> a[k] == if k == (i, to) then row else if k in over then over[k] else data[k])
  {
  }

  /** Two overlays that differ by one row. */
  lemma OneMoreRow(data: map<(int, int), seq<Byte>>, over: map<(int, int), seq<Byte>>,
                   wider: map<(int, int), seq<Byte>>, i: int, from: int, to: int)
    requires from <= to
    requires forall x :: x in over <==> x.0 == i && from <= x.1 < to
    requires forall x :: x in wider <==> x.0 == i && from <= x.1 <= to
    requires forall x | x in over :: wider[x] == over[x]
    ensures (i, to) in wider && (data + over)[(i, to) := wider[(i, to)]] == data + wider
  {
    assert (i, to) in wider;
    var a, b := (data + over)[(i, to) := wider[(i, to)]], data + wider;
    forall k ensures (k in a <==> k in b) && (k in a ==> a[k] == b[k]) {
      OverlayRow(data, over, i, from, to, wider[(i, to)], k);
    }
  }

  lemma ZeroedOneMore(data: map<(int, int), seq<Byte>>, i: int, chunkSize: int, n: int, from: int, to: int)
    requires 0 < chunkSize && from <= to
    ensures ZeroedUpTo(data, i, chunkSize, n, from, to + 1) ==
            ZeroedUpTo(data, i, chunkSize, n, from, to)[(i, to) := Zeros(Filled(to, n, chunkSize))]
  {
    OneMoreRow(data, RowsZeroed(i, chunkSize, n, from, to), RowsZeroed(i, chunkSize, n, from, to + 1), i, from, to);
  }

  lemma WrittenOneMore(data: map<(int, int), seq<Byte>>, i: int, chunkSize: int,
                       offset: int, bytes: seq<Byte>, c: int)
    requires 0 <= offset && 0 < chunkSize && offset / chunkSize <= c
    ensures WrittenUpTo(data, i, chunkSize, offset, bytes, c)
              [(i, c) := Merged(Chunk(data, i, c), c * chunkSize, chunkSize, offset, bytes)]
         == WrittenUpTo(data, i, chunkSize, offset, bytes, c + 1)
  {
    OneMoreRow(data, RowsWritten(data, i, chunkSize, offset, bytes, c),
               RowsWritten(data, i, chunkSize, offset, bytes, c + 1), i, offset / chunkSize, c);
  }

  /** Where the next chunk starts. */
  lemma AfterChunk(offset: int, length: int, chunkSize: int, written: int, toWrite: int)
    requires 0 <= offset && 0 < chunkSize && 0 <= written < length
    requires toWrite == Min(chunkSize - (offset + written) % chunkSize, length - written)
    ensures var chunk := (offset + written) / chunkSize;
            if written + toWrite < length
            then (offset + written + toWrite) / chunkSize == chunk + 1
                 && offset + written + toWrite == (chunk + 1) * chunkSize
            else (offset + length - 1) / chunkSize == chunk
  {
    var chunk, within := (offset + written) / chunkSize, (offset + written) % chunkSize;
    DivMod(offset + written, chunkSize);
    if written + toWrite < length {
      assert (chunk + 1) * chunkSize == chunk * chunkSize + chunkSize;
      ChunkOf(chunk + 1, 0, chunkSize);
    } else {
      assert offset + length - 1 == chunk * chunkSize + (within + toWrite - 1);
      ChunkOf(chunk, within + toWrite - 1, chunkSize);
    }
  }
}
