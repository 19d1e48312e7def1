/** The two producers of a tree archive: the live walk over a filesystem and the walk
    over a snapshot's rows. Both emit the encoding of the tree they stand for. */
module TreeExport {
  import opened Wrappers
  import opened Frames
  import opened Paths
  import opened Archive
  import opened ArchiveReader
  import opened Utf16

  // --- Name order ------------------------------------------------------------------

  /** A directory row or listing entry; `key` finds the node it leads to. */
  datatype Child<K> = Child(name: string, key: K)

  ghost function Members<K>(s: seq<Child<K>>): set<Child<K>> { set x | x in s }

  lemma MembersCons<K>(s: seq<Child<K>>)
    requires s != []
    ensures Members(s) == {s[0]} + Members(s[1..])
  {
    assert s == [s[0]] + s[1..];
  }

  function Insert<K>(c: Child<K>, s: seq<Child<K>>): (r: seq<Child<K>>)
    ensures Members(r) == Members(s) + {c} && |r| == |s| + 1
    decreases |s|
  {
    if s == [] || !Less(s[0].name, c.name) then
      var r := [c] + s;
      MembersCons(r);
      assert r[1..] == s;
      r
    else
      var r := [s[0]] + Insert(c, s[1..]);
      MembersCons(s);
      MembersCons(r);
      assert r[1..] == Insert(c, s[1..]);
      r
  }

  /** slice().sort by name. */
  function Sort<K>(s: seq<Child<K>>): (r: seq<Child<K>>)
    ensures Members(r) == Members(s) && |r| == |s|
    decreases |s|
  {
    if s == [] then []
    else
      MembersCons(s);
      Insert(s[0], Sort(s[1..]))
  }

  predicate Ascending<K>(s: seq<Child<K>>) { forall i, j | 0 <= i < j < |s| :: Less(s[i].name, s[j].name) }

  predicate DistinctNames<K>(s: seq<Child<K>>) { forall i, j | 0 <= i < j < |s| :: s[i].name != s[j].name }

  lemma {:induction false} InsertAscending<K>(c: Child<K>, s: seq<Child<K>>)
    requires Ascending(s) && forall x | x in Members(s) :: x.name != c.name
    ensures Ascending(Insert(c, s))
    decreases |s|
  {
    if s != [] {
      MembersCons(s);
      TailAscending(s);
      LessTotal(s[0].name, c.name);
      if Less(s[0].name, c.name) {
        InsertAscending(c, s[1..]);
        ConsAscending(s[0], Insert(c, s[1..]));
      } else {
        forall x | x in Members(s) ensures Less(c.name, x.name) {
          if x != s[0] { LessTransitive(c.name, s[0].name, x.name); }
        }
        ConsAscending(c, s);
      }
    }
  }

  lemma TailAscending<K>(s: seq<Child<K>>)
    requires Ascending(s) && s != []
    ensures Ascending(s[1..]) && forall x | x in Members(s[1..]) :: Less(s[0].name, x.name)
  {
    assert forall i | 0 <= i < |s[1..]| :: s[1..][i] == s[i + 1];
  }

  lemma ConsAscending<K>(c: Child<K>, s: seq<Child<K>>)
    requires Ascending(s) && forall x | x in Members(s) :: Less(c.name, x.name)
    ensures Ascending([c] + s)
  {
    var r := [c] + s;
    forall i, j | 0 <= i < j < |r| ensures Less(r[i].name, r[j].name) {
      assert r[j] == s[j - 1] && r[j] in Members(s);
      if i > 0 { assert r[i] == s[i - 1]; }
    }
  }

  lemma {:induction false} SortAscending<K>(s: seq<Child<K>>)
    requires DistinctNames(s)
    ensures Ascending(Sort(s))
    decreases |s|
  {
    if s != [] {
      var rest := s[1..];
      assert forall i | 0 <= i < |rest| :: rest[i] == s[i + 1];
      SortAscending(rest);
      forall x | x in Members(Sort(rest)) ensures x.name != s[0].name {
        var i :| 0 <= i < |rest| && rest[i] == x;
      }
      InsertAscending(s[0], Sort(rest));
    }
  }

  lemma TailMembers<K>(s: seq<Child<K>>)
    requires Ascending(s) && s != []
    ensures Members(s[1..]) == Members(s) - {s[0]}
  {
    MembersCons(s);
    TailAscending(s);
    LessTotal(s[0].name, s[0].name);
  }

  /** The least name comes first. */
  lemma FirstIsLeast<K>(s: seq<Child<K>>, x: Child<K>)
    requires Ascending(s) && x in Members(s)
    ensures x == s[0] || Less(s[0].name, x.name)
  {
    MembersCons(s);
    TailAscending(s);
  }

  /** An ascending list is determined by its members. */
  lemma {:induction false} AscendingUnique<K>(a: seq<Child<K>>, b: seq<Child<K>>)
    requires Ascending(a) && Ascending(b) && Members(a) == Members(b) && |a| == |b|
    ensures a == b
    decreases |a|
  {
    if a != [] {
      MembersCons(a);
      MembersCons(b);
      FirstIsLeast(a, b[0]);
      FirstIsLeast(b, a[0]);
      LessTotal(a[0].name, b[0].name);
      TailMembers(a);
      TailMembers(b);
      AscendingUnique(a[1..], b[1..]);
      assert a == [a[0]] + a[1..] && b == [b[0]] + b[1..];
    }
  }

  /** Whatever order a directory is listed in, it is walked in the same one. */
  lemma ListingOrderIrrelevant<K>(a: seq<Child<K>>, b: seq<Child<K>>)
    requires DistinctNames(a) && DistinctNames(b) && Members(a) == Members(b) && |a| == |b|
    ensures Sort(a) == Sort(b)
  {
    SortAscending(a);
    SortAscending(b);
    AscendingUnique(Sort(a), Sort(b));
  }

  // --- What is exported ---------------------------------------------------------------

  datatype FileKind = Directory | RegularFile | SymbolicLink | Special

  /** A filesystem as its exporters read it: a live one keyed by path, a snapshot by
      inode number. A file's bytes come in chunks, stored rows or successive reads. */
  datatype Source<!K> = Source(kinds: map<K, FileKind>, children: map<K, seq<Child<K>>>,
                               targets: map<K, string>, chunks: map<K, seq<Bytes>>)

  function Listing<K>(src: Source<K>, key: K): seq<Child<K>> {
    if key in src.children then Sort(src.children[key]) else []
  }

  function ChunksOf<K>(src: Source<K>, key: K): seq<Bytes> {
    if key in src.chunks then src.chunks[key] else []
  }

  /** The source has exactly the node at `key`. */
  predicate HoldsNode<K>(src: Source<K>, key: K, node: Node)
    decreases node, 1
  {
    key in src.kinds &&
    match node
    case Dir(es) => src.kinds[key] == Directory && HoldsAll(src, Listing(src, key), es)
    case File(content) => src.kinds[key] == RegularFile && content == Concat(ChunksOf(src, key))
    case Link(target) => src.kinds[key] == SymbolicLink && key in src.targets && src.targets[key] == target
    case Other => src.kinds[key] == Special
  }

  /** A sorted listing, rows without an inode left out, has exactly the entries. */
  predicate HoldsAll<K>(src: Source<K>, listing: seq<Child<K>>, es: seq<Entry>)
    decreases es, 0, |listing|
  {
    if listing == [] then es == []
    else if listing[0].key !in src.kinds then HoldsAll(src, listing[1..], es)
    else es != [] && es[0].name == listing[0].name && HoldsNode(src, listing[0].key, es[0].node)
         && HoldsAll(src, listing[1..], es[1..])
  }

  function TextOf(prefix: string, name: string): string {
    if prefix == "" then name else prefix + "/" + name
  }

  lemma {:induction false} JoinSnoc(rel: seq<string>, name: string)
    requires SafeNames(rel)
    ensures Join(rel + [name]) == TextOf(Join(rel), name)
  {
    if rel == [] {
      assert rel + [name] == [name];
    } else if |rel| == 1 {
      assert (rel + [name])[1..] == [name];
      assert IsComponent(rel[0]);
    } else {
      JoinSnoc(rel[1..], name);
      assert (rel + [name])[1..] == rel[1..] + [name];
      assert SafeName(rel[1]);
      assert Join(rel[1..]) != "";
      assert rel[0] + "/" + (Join(rel[1..]) + "/" + name) == rel[0] + "/" + Join(rel[1..]) + "/" + name;
    }
  }

  /** What a walk relies on for the next entry, and what is left to do after it. */
  lemma TakeFirst<K>(c: Codec, src: Source<K>, listing: seq<Child<K>>, rel: seq<string>, todo: seq<Entry>,
                     es: seq<Entry>)
    requires listing != [] && listing[0].key in src.kinds && HoldsAll(src, listing, todo)
    requires AllArchivable(c, rel, todo) && SafeNames(rel)
    requires |todo| <= |es| && todo == es[|es| - |todo|..]
    ensures todo != [] && todo[0] in es && todo[1..] == es[|es| - |todo[1..]|..]
    ensures var first := rel + [listing[0].name];
            && HoldsNode(src, listing[0].key, todo[0].node) && Archivable(c, first, todo[0].node) && SafeNames(first)
            && Join(first) == TextOf(Join(rel), listing[0].name)
            && HoldsAll(src, listing[1..], todo[1..]) && AllArchivable(c, rel, todo[1..])
            && EncodeEntries(c, rel, todo) == EncodeNode(c, first, todo[0].node) + EncodeEntries(c, rel, todo[1..])
  {
    JoinSnoc(rel, listing[0].name);
    assert todo[0] == es[|es| - |todo|];
  }

  lemma {:induction false} ConcatSnoc(chunks: seq<Bytes>, x: Bytes)
    ensures Concat(chunks + [x]) == Concat(chunks) + x
  {
    if chunks == [] {
      assert chunks + [x] == [x] && [x][1..] == [];
      assert Concat([x]) == x + Concat([]);
    } else {
      ConcatSnoc(chunks[1..], x);
      assert (chunks + [x])[0] == chunks[0] && (chunks + [x])[1..] == chunks[1..] + [x];
      Associates(chunks[0], Concat(chunks[1..]), x);
    }
  }

  // --- Frames ----------------------------------------------------------------------------

  /** encodeHeader; None when the JSON is over the limit. */
  function EncodeHeader(c: Codec, h: Record): Option<Bytes> {
    if |c.encode(h)| > MAX_HEADER then None else Some(Prefixed(c.encode(h)))
  }

  // --- The snapshot walk --------------------------------------------------------------------

  /** SELECT SUM(LENGTH(data)). */
  method SumLengths(chunks: seq<Bytes>) returns (n: nat)
    ensures n == |Concat(chunks)|
  {
    n := 0;
    for i := 0 to |chunks|
      invariant n == |Concat(chunks[..i])|
    {
      assert chunks[..i + 1] == chunks[..i] + [chunks[i]];
      ConcatSnoc(chunks[..i], chunks[i]);
      n := n + |chunks[i]|;
    }
    assert chunks[..|chunks|] == chunks;
  }

  /** The body of a snapshot file: its rows in order, empty ones passed over. */
  method SnapshotBody(chunks: seq<Bytes>, size: nat) returns (body: Option<Bytes>)
    ensures body == if size == |Concat(chunks)| then Some(Concat(chunks)) else None
  {
    var out, emitted := [], 0;
    for i := 0 to |chunks|
      invariant out == Concat(chunks[..i]) && emitted == |out|
    {
      assert chunks[..i + 1] == chunks[..i] + [chunks[i]];
      ConcatSnoc(chunks[..i], chunks[i]);
      if |chunks[i]| == 0 { continue; }
      emitted := emitted + |chunks[i]|;
      out := out + chunks[i];
    }
    assert chunks[..|chunks|] == chunks;
    if emitted != size { return None; }
    return Some(out);
  }

  /** One child of the snapshot walk. */
  method ExportSnapshotNode(c: Codec, src: Source<int>, ino: int, text: string, ghost rel: seq<string>,
                            ghost node: Node)
    returns (out: Option<Bytes>)
    requires HoldsNode(src, ino, node) && Archivable(c, rel, node) && SafeNames(rel) && rel != [] && text == Join(rel)
    ensures out == Some(EncodeNode(c, rel, node))
    decreases node, 1
  {
    SafeNamesPath(rel);
    if !SafePath(text) { return None; }
    match src.kinds[ino] {
      case Directory =>
        var header := EncodeHeader(c, Record(D, Some(text), None, None));
        if header.None? { return None; }
        var inner := WalkSnapshot(c, src, ino, text, rel, node.entries);
        if inner.None? { return None; }
        return Some(header.value + inner.value);
      case SymbolicLink =>
        if ino !in src.targets { return None; }
        return EncodeHeader(c, Record(L, Some(text), None, Some(src.targets[ino])));
      case RegularFile =>
        var size := SumLengths(ChunksOf(src, ino));
        if size > MAX_FILE_SIZE { return None; }
        var header := EncodeHeader(c, Record(F, Some(text), Some(size), None));
        if header.None? { return None; }
        var body := SnapshotBody(ChunksOf(src, ino), size);
        if body.None? { return None; }
        return Some(header.value + body.value);
      case Special => return Some([]);
    }
  }

  /** walkSnapshot: over rows in any order, the encoding of the tree they hold. */
  method WalkSnapshot(c: Codec, src: Source<int>, parent: int, prefix: string, ghost rel: seq<string>,
                      ghost es: seq<Entry>)
    returns (out: Option<Bytes>)
    requires HoldsAll(src, Listing(src, parent), es) && AllArchivable(c, rel, es) && SafeNames(rel)
             && prefix == Join(rel)
    ensures out == Some(EncodeEntries(c, rel, es))
    decreases es, 0
  {
    var children, bytes := Listing(src, parent), [];
    ghost var todo := es;
    assert children[0..] == children;
    for i := 0 to |children|
      invariant HoldsAll(src, children[i..], todo) && AllArchivable(c, rel, todo)
      invariant bytes + EncodeEntries(c, rel, todo) == EncodeEntries(c, rel, es)
      invariant |todo| <= |es| && todo == es[|es| - |todo|..]
    {
      var child := children[i];
      assert children[i..][0] == child && children[i..][1..] == children[i + 1..];
      if child.key !in src.kinds { continue; }
      TakeFirst(c, src, children[i..], rel, todo, es);
      var inner := ExportSnapshotNode(c, src, child.key, TextOf(prefix, child.name), rel + [child.name], todo[0].node);
      if inner.None? { return None; }
      Associates(bytes, inner.value, EncodeEntries(c, rel, todo[1..]));
      bytes := bytes + inner.value;
      todo := todo[1..];
    }
    assert children[|children|..] == [] && bytes + [] == bytes;
    return Some(bytes);
  }

  /** encodeSnapshotArchive. */
  method EncodeSnapshotArchive(c: Codec, src: Source<int>, root: int, ghost es: seq<Entry>) returns (out: Option<Bytes>)
    requires HoldsAll(src, Listing(src, root), es) && AllArchivable(c, [], es) && Encodes(c, DirRecord([]))
    ensures out == Some(EncodeTree(c, es))
  {
    var header := EncodeHeader(c, Record(D, Some(""), None, None));
    if header.None? { return None; }
    var inner := WalkSnapshot(c, src, root, "", [], es);
    if inner.None? { return None; }
    return Some(MAGIC + header.value + inner.value + Header(0));
  }

  // --- The live walk ----------------------------------------------------------------------------

  const READ_CHUNK := 256 * 1024

  /** fileBytes: reads of at most READ_CHUNK until the size stat reported. */
  method FileBytes(content: Bytes, size: nat) returns (body: Option<Bytes>)
    ensures body == if size <= |content| then Some(content[..size]) else None
  {
    var out := [];
    while |out| < size
      invariant |out| <= size && |out| <= |content| && out == content[..|out|]
      decreases size - |out|
    {
      var wanted := if READ_CHUNK < size - |out| then READ_CHUNK else size - |out|;
      var got := if wanted < |content| - |out| then wanted else |content| - |out|;
      var chunk := content[|out|..|out| + got];
      if |chunk| == 0 { return None; }
      assert content[..|out| + got] == content[..|out|] + chunk;
      out := out + chunk;
    }
    return Some(out);
  }

  method ExportLiveNode(c: Codec, src: Source<string>, abs: string, text: string, ghost rel: seq<string>,
                        ghost node: Node)
    returns (out: Option<Bytes>)
    requires HoldsNode(src, abs, node) && Archivable(c, rel, node) && SafeNames(rel) && rel != [] && text == Join(rel)
    requires Keyed(src)
    ensures out == Some(EncodeNode(c, rel, node))
    decreases node, 1
  {
    match src.kinds[abs] {
      case Directory =>
        var header := EncodeHeader(c, Record(D, Some(text), None, None));
        if header.None? { return None; }
        var inner := WalkLive(c, src, abs, text, rel, node.entries);
        if inner.None? { return None; }
        return Some(header.value + inner.value);
      case SymbolicLink =>
        return EncodeHeader(c, Record(L, Some(text), None, Some(src.targets[abs])));
      case RegularFile =>
        ghost var content := Concat(ChunksOf(src, abs));
        var size := SumLengths(ChunksOf(src, abs));
        var header := EncodeHeader(c, Record(F, Some(text), Some(size), None));
        if header.None? { return None; }
        var body := FileBytes(Concat(ChunksOf(src, abs)), size);
        assert content[..|content|] == content;
        if body.None? { return None; }
        return Some(header.value + body.value);
      case Special => return Some([]);
    }
  }

  function JoinAbsolute(dir: string, name: string): string {
    if dir == "/" then "/" + name else dir + "/" + name
  }

  /** The path of an entry is that of its directory and its name. */
  lemma AbsolutePath(dir: seq<string>, name: string)
    requires SafeNames(dir)
    ensures JoinAbsolute("/" + Join(dir), name) == "/" + Join(dir + [name])
  {
    JoinSnoc(dir, name);
    if dir != [] {
      assert SafeName(dir[0]) && Join(dir) != "" by { if |dir| > 1 { assert |Join(dir)| >= |dir[0]| + 1; } }
    }
  }

  predicate ListedUnder(src: Source<string>, dir: string, entry: Child<string>) {
    entry.key == JoinAbsolute(dir, entry.name) && entry.key in src.kinds
  }

  /** A live listing's entries are found, with their stats, under their directory. */
  predicate Keyed(src: Source<string>) {
    forall dir | dir in src.children ::
      forall i | 0 <= i < |src.children[dir]| :: ListedUnder(src, dir, src.children[dir][i])
  }

  lemma ListedKeys(src: Source<string>, dir: string)
    requires Keyed(src)
    ensures forall i | 0 <= i < |Listing(src, dir)| :: ListedUnder(src, dir, Listing(src, dir)[i])
  {
    if dir in src.children {
      var s := src.children[dir];
      forall i | 0 <= i < |Sort(s)| ensures ListedUnder(src, dir, Sort(s)[i]) {
        assert Sort(s)[i] in Members(Sort(s)) && Sort(s)[i] in Members(s);
        var j :| 0 <= j < |s| && s[j] == Sort(s)[i];
      }
    }
  }

  /** walk: over listings in any order, the encoding of the tree they show. */
  method WalkLive(c: Codec, src: Source<string>, dirAbs: string, prefix: string, ghost rel: seq<string>,
                  ghost es: seq<Entry>)
    returns (out: Option<Bytes>)
    requires HoldsAll(src, Listing(src, dirAbs), es) && AllArchivable(c, rel, es) && SafeNames(rel)
             && prefix == Join(rel)
    requires Keyed(src)
    ensures out == Some(EncodeEntries(c, rel, es))
    decreases es, 0
  {
    var entries, bytes := Listing(src, dirAbs), [];
    ghost var todo := es;
    ListedKeys(src, dirAbs);
    assert entries[0..] == entries;
    for i := 0 to |entries|
      invariant HoldsAll(src, entries[i..], todo) && AllArchivable(c, rel, todo)
      invariant bytes + EncodeEntries(c, rel, todo) == EncodeEntries(c, rel, es)
      invariant |todo| <= |es| && todo == es[|es| - |todo|..]
    {
      var entry := entries[i];
      assert entries[i..][0] == entry && entries[i..][1..] == entries[i + 1..];
      assert ListedUnder(src, dirAbs, entry);
      TakeFirst(c, src, entries[i..], rel, todo, es);
      var inner := ExportLiveNode(c, src, JoinAbsolute(dirAbs, entry.name), TextOf(prefix, entry.name),
                                  rel + [entry.name], todo[0].node);
      if inner.None? { return None; }
      Associates(bytes, inner.value, EncodeEntries(c, rel, todo[1..]));
      bytes := bytes + inner.value;
      todo := todo[1..];
    }
    assert entries[|entries|..] == [] && bytes + [] == bytes;
    return Some(bytes);
  }

  /** encodeTree. With the same tree in both sources, this and the snapshot exporter
      emit the same bytes. */
  method EncodeLiveTree(c: Codec, src: Source<string>, root: string, ghost es: seq<Entry>) returns (out: Option<Bytes>)
    requires HoldsAll(src, Listing(src, root), es) && AllArchivable(c, [], es) && Encodes(c, DirRecord([]))
    requires Keyed(src)
    ensures out == Some(EncodeTree(c, es))
  {
    var header := EncodeHeader(c, Record(D, Some(""), None, None));
    if header.None? { return None; }
    var inner := WalkLive(c, src, root, "", [], es);
    if inner.None? { return None; }
    return Some(MAGIC + header.value + inner.value + Header(0));
  }

  // --- Comparing two files chunk by chunk -----------------------------------------------------------

  /** Rows are taken until there is something to compare. */
  method Pull(buffer: Bytes, chunks: seq<Bytes>) returns (buffer': Bytes, chunks': seq<Bytes>)
    ensures buffer' + Concat(chunks') == buffer + Concat(chunks)
    ensures buffer' == [] ==> chunks' == []
  {
    buffer', chunks' := buffer, chunks;
    while buffer' == [] && chunks' != []
      invariant buffer' + Concat(chunks') == buffer + Concat(chunks)
      decreases |chunks'|
    {
      buffer', chunks' := chunks'[0], chunks'[1..];
    }
  }

  lemma CutEqual(a: Bytes, x: Bytes, b: Bytes, y: Bytes, n: nat)
    requires n <= |a| && n <= |b|
    ensures a + x == b + y <==> a[..n] == b[..n] && a[n..] + x == b[n..] + y
  {
    assert (a + x)[..n] == a[..n] && (a + x)[n..] == a[n..] + x;
    assert (b + y)[..n] == b[..n] && (b + y)[n..] == b[n..] + y;
    assert a + x == (a + x)[..n] + (a + x)[n..] && b + y == (b + y)[..n] + (b + y)[n..];
  }

  /** fileContentsEqual: the rows may be cut differently on the two sides. */
  method FileContentsEqual(left: seq<Bytes>, right: seq<Bytes>) returns (equal: bool)
    ensures equal <==> Concat(left) == Concat(right)
  {
    var a := SumLengths(left);
    var b := SumLengths(right);
    if a != b { return false; }
    var l, r: seq<Bytes> := left, right;
    var leftBuf, rightBuf: Bytes := [], [];
    assert leftBuf + Concat(l) == Concat(left) && rightBuf + Concat(r) == Concat(right);
    while true
      invariant Concat(left) == Concat(right) <==> leftBuf + Concat(l) == rightBuf + Concat(r)
      decreases |leftBuf + Concat(l)|
    {
      leftBuf, l := Pull(leftBuf, l);
      rightBuf, r := Pull(rightBuf, r);
      if |leftBuf| == 0 && |rightBuf| == 0 { return true; }
      var n := if |leftBuf| < |rightBuf| then |leftBuf| else |rightBuf|;
      if n == 0 { return false; }
      CutEqual(leftBuf, Concat(l), rightBuf, Concat(r), n);
      for i := 0 to n
        invariant leftBuf[..i] == rightBuf[..i]
      {
        if leftBuf[i] != rightBuf[i] {
          assert leftBuf[..n][i] != rightBuf[..n][i];
          return false;
        }
      }
      leftBuf, rightBuf := leftBuf[n..], rightBuf[n..];
    }
  }
}
