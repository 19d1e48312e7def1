/** The tree archive: a stream of length-prefixed headers and raw file bodies. */
module Archive {
  import opened Wrappers
  import opened Frames
  import opened Paths

  const MAGIC: Bytes := [65, 73, 82, 89, 70, 83, 1]
  const MAX_HEADER := 64 * 1024
  const MAX_FILE_SIZE := 0x4_0000_0000_0000

  // --- Headers --------------------------------------------------------------------

  datatype Kind = D | F | L

  /** The parsed JSON; None stands for a field that is absent or of the wrong type. */
  datatype Record = Record(t: Kind, p: Option<string>, s: Option<int>, l: Option<string>)

  /** JSON text of a record and back; None is text that is not such a record. */
  datatype Codec = Codec(encode: Record -> Bytes, decode: Bytes -> Option<Record>)

  function Prefixed(json: Bytes): Bytes { Header(|json|) + json }

  /** The header can be written, and reads back as itself. */
  predicate Encodes(c: Codec, h: Record) {
    0 < |c.encode(h)| <= MAX_HEADER && c.decode(c.encode(h)) == Some(h)
  }

  /** validateRelativePath: the root's empty path, or safe segments. */
  predicate SafePath(p: string) {
    p == "" || ('\0' !in p && forall i | 0 <= i < |Split(p)| :: Split(p)[i] !in {"", ".", ".."})
  }

  predicate SafeName(n: string) { IsComponent(n) && n != "." && n != ".." && '\0' !in n }

  predicate SafeNames(rel: seq<string>) { forall i | 0 <= i < |rel| :: SafeName(rel[i]) }

  function Segments(p: string): seq<string> { if p == "" then [] else Split(p) }

  lemma {:induction false} JoinNoNul(rel: seq<string>)
    requires SafeNames(rel)
    ensures '\0' !in Join(rel)
  {
    if |rel| > 1 { JoinNoNul(rel[1..]); }
  }

  /** The path text of safe names is accepted, and names them. */
  lemma SafeNamesPath(rel: seq<string>)
    requires SafeNames(rel)
    ensures SafePath(Join(rel)) && Segments(Join(rel)) == rel
  {
    if rel != [] {
      SplitOfJoin(rel);
      JoinNoNul(rel);
      assert rel[0] != "";
    }
  }

  // --- Trees ---------------------------------------------------------------------------

  /** A directory's entries in name order; Other is a device or pipe. */
  datatype Node = Dir(entries: seq<Entry>) | File(content: Bytes) | Link(target: string) | Other
  datatype Entry = Entry(name: string, node: Node)

  function DirRecord(rel: seq<string>): Record { Record(D, Some(Join(rel)), None, None) }
  function FileRecord(rel: seq<string>, size: nat): Record { Record(F, Some(Join(rel)), Some(size), None) }
  function LinkRecord(rel: seq<string>, target: string): Record { Record(L, Some(Join(rel)), None, Some(target)) }

  function EncodeNode(c: Codec, rel: seq<string>, node: Node): Bytes
    decreases node, 1
  {
    match node
    case Dir(es) => Prefixed(c.encode(DirRecord(rel))) + EncodeEntries(c, rel, es)
    case File(content) => Prefixed(c.encode(FileRecord(rel, |content|))) + content
    case Link(target) => Prefixed(c.encode(LinkRecord(rel, target)))
    case Other => []
  }

  function EncodeEntries(c: Codec, rel: seq<string>, es: seq<Entry>): Bytes
    decreases es, 0
  {
    if es == [] then [] else EncodeNode(c, rel + [es[0].name], es[0].node) + EncodeEntries(c, rel, es[1..])
  }

  /** encodeTree: magic, the root record, the tree, the end marker. */
  function EncodeTree(c: Codec, es: seq<Entry>): Bytes {
    MAGIC + Prefixed(c.encode(DirRecord([]))) + EncodeEntries(c, [], es) + Header(0)
  }

  /** Safe distinct names, headers within the limit, file sizes within the cap. */
  predicate Archivable(c: Codec, rel: seq<string>, node: Node)
    decreases node, 1
  {
    match node
    case Dir(es) => Encodes(c, DirRecord(rel)) && AllArchivable(c, rel, es)
    case File(content) => Encodes(c, FileRecord(rel, |content|)) && |content| <= MAX_FILE_SIZE
    case Link(target) => Encodes(c, LinkRecord(rel, target))
    case Other => true
  }

  predicate AllArchivable(c: Codec, rel: seq<string>, es: seq<Entry>)
    decreases es, 0
  {
    es != [] ==>
      && SafeName(es[0].name) && Archivable(c, rel + [es[0].name], es[0].node)
      && (forall i | 1 <= i < |es| :: es[i].name != es[0].name)
      && AllArchivable(c, rel, es[1..])
  }

  // --- What a tree is on disk --------------------------------------------------------------

  datatype Object = Folder | Regular(content: Bytes) | Symlink(target: string)

  /** Objects by the names that lead to them from the extraction directory. */
  type Disk = map<seq<string>, Object>

  datatype Summary = Summary(files: nat, directories: nat, symlinks: nat, bytes: nat)

  function Plus(a: Summary, b: Summary): Summary {
    Summary(a.files + b.files, a.directories + b.directories, a.symlinks + b.symlinks, a.bytes + b.bytes)
  }

  function LayNode(rel: seq<string>, node: Node): Disk
    decreases node, 1
  {
    match node
    case Dir(es) => map[rel := Folder] + LayEntries(rel, es)
    case File(content) => map[rel := Regular(content)]
    case Link(target) => map[rel := Symlink(target)]
    case Other => map[]
  }

  function LayEntries(rel: seq<string>, es: seq<Entry>): Disk
    decreases es, 0
  {
    if es == [] then map[] else LayNode(rel + [es[0].name], es[0].node) + LayEntries(rel, es[1..])
  }

  const NOTHING := Summary(0, 0, 0, 0)

  function CountNode(node: Node): Summary
    decreases node, 1
  {
    match node
    case Dir(es) => Plus(Summary(0, 1, 0, 0), CountEntries(es))
    case File(content) => Summary(1, 0, 0, |content|)
    case Link(_) => Summary(0, 0, 1, 0)
    case Other => NOTHING
  }

  function CountEntries(es: seq<Entry>): Summary
    decreases es, 0
  {
    if es == [] then NOTHING else Plus(CountNode(es[0].node), CountEntries(es[1..]))
  }

  // --- Extraction -----------------------------------------------------------------------------

  /** `first` until the root record has been read. The path registry holds exactly the
      kinds of what has been made on `disk`. */
  datatype State = State(first: bool, disk: Disk, summary: Summary)

  /** An object can be made: it is not there, and its parent is a directory. */
  predicate Makeable(disk: Disk, rel: seq<string>) {
    && rel != [] && rel !in disk
    && rel[..|rel| - 1] in disk && disk[rel[..|rel| - 1]] == Folder
  }

  datatype Item = Item(record: Record, body: Bytes)

  /** How long a body follows a header; None rejects it. */
  function BodyLength(h: Record): Option<nat> {
    if h.t != F then Some(0)
    else if h.s.Some? && 0 <= h.s.value <= MAX_FILE_SIZE then Some(h.s.value) else None
  }

  datatype Front = End(rest: Bytes) | More(record: Record, rest: Bytes) | Broken

  /** readHeader */
  function ReadHeader(c: Codec, b: Bytes): (f: Front)
    ensures f.More? ==> |f.rest| < |b|
  {
    if |b| < HEADER_SIZE then Broken
    else
      var n := FrameLength(b);
      if n == 0 then End(b[HEADER_SIZE..])
      else if n > MAX_HEADER || |b| < HEADER_SIZE + n then Broken
      else
        match c.decode(b[HEADER_SIZE..HEADER_SIZE + n])
        case None => Broken
        case Some(h) => More(h, b[HEADER_SIZE + n..])
  }

  /** The entries up to the end marker, and the bytes after it. */
  function Items(c: Codec, b: Bytes): Option<(seq<Item>, Bytes)>
    decreases |b|
  {
    match ReadHeader(c, b)
    case End(rest) => Some(([], rest))
    case Broken => None
    case More(h, rest) =>
      match BodyLength(h)
      case None => None
      case Some(n) => if |rest| < n then None else Before([Item(h, rest[..n])], Items(c, rest[n..]))
  }

  function Before(done: seq<Item>, more: Option<(seq<Item>, Bytes)>): Option<(seq<Item>, Bytes)> {
    match more
    case None => None
    case Some((items, rest)) => Some((done + items, rest))
  }

  /** One entry written to the disk; None when it is refused. */
  function Accept(st: State, item: Item): Option<State> {
    var h := item.record;
    if h.p.None? || !SafePath(h.p.value) then None
    else Place(st, Segments(h.p.value), h, item.body)
  }

  function Place(st: State, rel: seq<string>, h: Record, body: Bytes): Option<State> {
    if st.first then if rel == [] && h.t == D then Some(st.(first := false)) else None
    else if !Makeable(st.disk, rel) then None
    else
      match h.t
      case D => Some(State(false, st.disk[rel := Folder], Plus(st.summary, Summary(0, 1, 0, 0))))
      case L =>
        if h.l.None? then None
        else Some(State(false, st.disk[rel := Symlink(h.l.value)], Plus(st.summary, Summary(0, 0, 1, 0))))
      case F => Some(State(false, st.disk[rel := Regular(body)], Plus(st.summary, Summary(1, 0, 0, |body|))))
  }

  function Replay(st: State, items: seq<Item>): Option<State>
    decreases |items|
  {
    if items == [] then Some(st)
    else match Accept(st, items[0])
         case None => None
         case Some(st') => Replay(st', items[1..])
  }

  const FRESH := State(true, map[[] := Folder], NOTHING)

  /** extractTree into an empty directory; None is an ArchiveError or a filesystem one. */
  function Extract(c: Codec, b: Bytes): Option<State> {
    if !(MAGIC <= b) then None
    else
      match Items(c, b[|MAGIC|..])
      case None => None
      case Some((items, rest)) => if rest == [] then Replay(FRESH, items) else None
  }

  // --- Prefixes and extensions ------------------------------------------------------------------

  lemma ReadHeaderMonotone(c: Codec, b: Bytes, more: Bytes)
    requires !ReadHeader(c, b).Broken?
    ensures match ReadHeader(c, b)
            case End(rest) => ReadHeader(c, b + more) == End(rest + more)
            case More(h, rest) => ReadHeader(c, b + more) == More(h, rest + more)
            case Broken => true
  {
    var all, n := b + more, FrameLength(b);
    assert FrameLength(all) == n;
    assert all[HEADER_SIZE..HEADER_SIZE + n] == b[HEADER_SIZE..HEADER_SIZE + n];
    assert all[HEADER_SIZE + n..] == b[HEADER_SIZE + n..] + more;
  }

  /** Bytes after the end marker do not change what was read before it. */
  lemma {:induction false} ItemsMonotone(c: Codec, b: Bytes, more: Bytes)
    requires Items(c, b).Some?
    ensures Items(c, b + more) == Some((Items(c, b).value.0, Items(c, b).value.1 + more))
    decreases |b|
  {
    ReadHeaderMonotone(c, b, more);
    if ReadHeader(c, b).More? {
      var rest, n := ReadHeader(c, b).rest, BodyLength(ReadHeader(c, b).record).value;
      assert (rest + more)[..n] == rest[..n] && (rest + more)[n..] == rest[n..] + more;
      ItemsMonotone(c, rest[n..], more);
    }
  }

  /** Of an archive that extracts, no proper prefix and no proper extension does. */
  lemma WholeOnly(c: Codec, b: Bytes, more: Bytes)
    requires more != []
    ensures Extract(c, b).Some? ==> Extract(c, b + more) == None
    ensures Extract(c, b + more).Some? ==> Extract(c, b) == None
  {
    if MAGIC <= b && Items(c, b[|MAGIC|..]).Some? {
      ItemsMonotone(c, b[|MAGIC|..], more);
      assert (b + more)[|MAGIC|..] == b[|MAGIC|..] + more;
      assert MAGIC <= b + more;
      assert Items(c, b[|MAGIC|..]).value.1 + more != [];
    }
  }

  // --- Nothing is made outside the target ---------------------------------------------------------

  /** A name that stays in its directory. */
  predicate StaysInside(name: string) {
    && name != "" && name != "." && name != ".."
    && '/' !in name && forall i | 0 <= i < |name| :: name[i] as int != 0
  }

  ghost predicate AllInside(disk: Disk) { forall k, i | k in disk && 0 <= i < |k| :: StaysInside(k[i]) }

  lemma {:induction false} SplitHasNoSlash(s: string, bad: char)
    requires bad !in s
    ensures forall i | 0 <= i < |Split(s)| :: '/' !in Split(s)[i] && bad !in Split(s)[i]
    decreases |s|
  {
    var h := Head(s);
    if |h| < |s| { SplitHasNoSlash(s[|h| + 1..], bad); }
  }

  lemma SafeInside(p: string)
    requires SafePath(p)
    ensures forall i | 0 <= i < |Segments(p)| :: StaysInside(Segments(p)[i])
  {
    if p != "" {
      SplitHasNoSlash(p, '\0');
      forall i | 0 <= i < |Split(p)| ensures StaysInside(Split(p)[i]) { assert Split(p)[i] !in {"", ".", ".."}; }
    }
  }

  lemma {:induction false} ReplayInside(st: State, items: seq<Item>)
    requires AllInside(st.disk) && Replay(st, items).Some?
    ensures AllInside(Replay(st, items).value.disk)
    decreases |items|
  {
    if items != [] {
      SafeInside(items[0].record.p.value);
      ReplayInside(Accept(st, items[0]).value, items[1..]);
    }
  }

  /** Whatever the bytes, what is extracted lies under names that stay inside the target:
      none is empty, `.` or `..`, none holds a slash or a NUL. */
  lemma ExtractsInside(c: Codec, b: Bytes)
    requires Extract(c, b).Some?
    ensures forall k, i | k in Extract(c, b).value.disk && 0 <= i < |k| ::
              var name := k[i];
              && name != "" && name != "." && name != ".."
              && '/' !in name && forall j | 0 <= j < |name| :: name[j] as int != 0
  {
    ReplayInside(FRESH, Items(c, b[|MAGIC|..]).value.0);
    assert AllInside(Extract(c, b).value.disk);
    forall k, i | k in Extract(c, b).value.disk && 0 <= i < |k| ensures StaysInside(k[i]) { }
  }

  /** The part of the text from `i` to `j` stands between slashes or the ends. */
  predicate SegmentAt(p: string, i: int, j: int) {
    0 <= i <= j <= |p| && (i == 0 || p[i - 1] == '/') && (j == |p| || p[j] == '/')
  }

  /** A path text that leaves the target or is not canonical: absolute, with a doubled or
      trailing slash, with a dot segment, or with a NUL. */
  ghost predicate Leaves(p: string) {
    || (exists i :: 0 <= i < |p| && p[i] as int == 0)
    || (p != "" && exists i, j :: SegmentAt(p, i, j) && (p[i..j] == "" || p[i..j] == "." || p[i..j] == ".."))
  }

  lemma {:induction false} SplitFinds(p: string, i: int, j: int)
    requires SegmentAt(p, i, j) && '/' !in p[i..j]
    ensures p[i..j] in Split(p)
    decreases |p|
  {
    var h := Head(p);
    if i == 0 {
      assert p == p[..j] + p[j..];
      HeadOf(p[..j], p[j..]);
      assert Split(p)[0] == p[0..j];
    } else {
      assert |h| < i;
      var rest, n := p[|h| + 1..], |h| + 1;
      assert rest[i - n..j - n] == p[i..j];
      SplitFinds(rest, i - n, j - n);
      assert Split(p) == [h] + Split(rest);
    }
  }

  lemma LeavesUnsafe(p: string)
    requires Leaves(p)
    ensures !SafePath(p)
  {
    if i :| 0 <= i < |p| && p[i] as int == 0 {
      assert p[i] == '\0';
    } else {
      var i, j :| SegmentAt(p, i, j) && (p[i..j] == "" || p[i..j] == "." || p[i..j] == "..");
      SplitFinds(p, i, j);
      var k :| 0 <= k < |Split(p)| && Split(p)[k] == p[i..j];
      assert Split(p)[k] in {"", ".", ".."};
    }
  }

  lemma {:induction false} ReplayRefuses(st: State, items: seq<Item>, k: nat)
    requires k < |items| && (items[k].record.p.None? || Leaves(items[k].record.p.value))
    ensures Replay(st, items).None?
    decreases k
  {
    if k == 0 {
      if items[0].record.p.Some? { LeavesUnsafe(items[0].record.p.value); }
    } else if Accept(st, items[0]).Some? {
      ReplayRefuses(Accept(st, items[0]).value, items[1..], k - 1);
    }
  }

  /** And an archive one of whose records has such a path, or none, does not extract. */
  lemma UnsafeRefused(c: Codec, b: Bytes, k: nat)
    requires MAGIC <= b && Items(c, b[|MAGIC|..]).Some? && k < |Items(c, b[|MAGIC|..]).value.0|
    requires var p := Items(c, b[|MAGIC|..]).value.0[k].record.p; p.None? || Leaves(p.value)
    ensures Extract(c, b) == None
  {
    ReplayRefuses(FRESH, Items(c, b[|MAGIC|..]).value.0, k);
  }

  // --- Round trip ----------------------------------------------------------------------------------

  /** The entries a tree is written as. */
  function ItemsOf(rel: seq<string>, node: Node): seq<Item>
    decreases node, 1
  {
    match node
    case Dir(es) => [Item(DirRecord(rel), [])] + ItemsOfAll(rel, es)
    case File(content) => [Item(FileRecord(rel, |content|), content)]
    case Link(target) => [Item(LinkRecord(rel, target), [])]
    case Other => []
  }

  function ItemsOfAll(rel: seq<string>, es: seq<Entry>): seq<Item>
    decreases es, 0
  {
    if es == [] then [] else ItemsOf(rel + [es[0].name], es[0].node) + ItemsOfAll(rel, es[1..])
  }

  lemma ReadPrefixed(c: Codec, h: Record, rest: Bytes)
    requires Encodes(c, h)
    ensures ReadHeader(c, Prefixed(c.encode(h)) + rest) == More(h, rest)
  {
    var json := c.encode(h);
    var b := Prefixed(json) + rest;
    HeaderRoundTrip(|json|);
    assert b[..HEADER_SIZE] == Header(|json|);
    assert FrameLength(b) == FrameLength(b[..HEADER_SIZE]);
    assert b[HEADER_SIZE..HEADER_SIZE + |json|] == json && b[HEADER_SIZE + |json|..] == rest;
  }

  /** One written entry is read back as it was written. */
  lemma ReadItem(c: Codec, h: Record, body: Bytes, rest: Bytes)
    requires Encodes(c, h) && BodyLength(h) == Some(|body|)
    ensures Items(c, Prefixed(c.encode(h)) + body + rest) == Before([Item(h, body)], Items(c, rest))
  {
    ReadPrefixed(c, h, body + rest);
    Associates(Prefixed(c.encode(h)), body, rest);
    assert (body + rest)[..|body|] == body && (body + rest)[|body|..] == rest;
  }

  lemma BeforeBefore(a: seq<Item>, b: seq<Item>, m: Option<(seq<Item>, Bytes)>)
    ensures Before(a, Before(b, m)) == Before(a + b, m)
  {
    match m
    case None =>
    case Some((items, rest)) => assert a + (b + items) == a + b + items;
  }

  lemma {:induction false} ReadNode(c: Codec, rel: seq<string>, node: Node, rest: Bytes)
    requires Archivable(c, rel, node)
    ensures Items(c, EncodeNode(c, rel, node) + rest) == Before(ItemsOf(rel, node), Items(c, rest))
    decreases node, 1
  {
    match node
    case Dir(es) =>
      var h, body := DirRecord(rel), EncodeEntries(c, rel, es);
      ReadItem(c, h, [], body + rest);
      assert Prefixed(c.encode(h)) + [] == Prefixed(c.encode(h));
      Associates(Prefixed(c.encode(h)), body, rest);
      ReadEntries(c, rel, es, rest);
      BeforeBefore([Item(h, [])], ItemsOfAll(rel, es), Items(c, rest));
    case File(content) => ReadItem(c, FileRecord(rel, |content|), content, rest);
    case Link(target) =>
      ReadItem(c, LinkRecord(rel, target), [], rest);
      assert Prefixed(c.encode(LinkRecord(rel, target))) + [] == Prefixed(c.encode(LinkRecord(rel, target)));
    case Other =>
      assert [] + rest == rest;
      BeforeNothing(Items(c, rest));
  }

  lemma BeforeNothing(m: Option<(seq<Item>, Bytes)>)
    ensures Before([], m) == m
  {
    match m
    case None =>
    case Some((items, rest)) => assert [] + items == items;
  }

  lemma {:induction false} ReadEntries(c: Codec, rel: seq<string>, es: seq<Entry>, rest: Bytes)
    requires AllArchivable(c, rel, es)
    ensures Items(c, EncodeEntries(c, rel, es) + rest) == Before(ItemsOfAll(rel, es), Items(c, rest))
    decreases es, 0
  {
    if es == [] {
      assert [] + rest == rest;
      BeforeNothing(Items(c, rest));
    } else {
      var first, others := EncodeNode(c, rel + [es[0].name], es[0].node), EncodeEntries(c, rel, es[1..]);
      Associates(first, others, rest);
      ReadNode(c, rel + [es[0].name], es[0].node, others + rest);
      ReadEntries(c, rel, es[1..], rest);
      BeforeBefore(ItemsOf(rel + [es[0].name], es[0].node), ItemsOfAll(rel, es[1..]), Items(c, rest));
    }
  }

  // --- Replaying a tree's entries --------------------------------------------------------------------

  lemma {:induction false} ReplayAppend(st: State, xs: seq<Item>, ys: seq<Item>)
    ensures Replay(st, xs + ys) == match Replay(st, xs)
                                   case None => None
                                   case Some(st') => Replay(st', ys)
    decreases |xs|
  {
    if xs == [] {
      assert xs + ys == ys;
    } else {
      assert (xs + ys)[0] == xs[0] && (xs + ys)[1..] == xs[1..] + ys;
      match Accept(st, xs[0])
      case None =>
      case Some(st') => ReplayAppend(st', xs[1..], ys);
    }
  }

  /** Nothing lies at or under `rel`. */
  predicate Vacant(disk: Disk, rel: seq<string>) { forall k | k in disk :: !(rel <= k) }

  /** Everything a node lays lies at or under its own path. */
  lemma {:induction false} LaidUnder(rel: seq<string>, node: Node)
    ensures forall k | k in LayNode(rel, node) :: rel <= k
    decreases node, 1
  {
    if node.Dir? { LaidEntriesUnder(rel, node.entries); }
  }

  lemma LongerPrefix(rel: seq<string>, name: string, k: seq<string>)
    ensures rel + [name] <= k ==> rel <= k
  {
    if rel + [name] <= k { assert k[..|rel| + 1][..|rel|] == rel; }
  }

  lemma {:induction false} LaidEntriesUnder(rel: seq<string>, es: seq<Entry>)
    ensures forall k | k in LayEntries(rel, es) :: rel <= k
    decreases es, 0
  {
    if es != [] {
      var first := rel + [es[0].name];
      LaidUnder(first, es[0].node);
      LaidEntriesUnder(rel, es[1..]);
      forall k | k in LayNode(first, es[0].node) ensures rel <= k { LongerPrefix(rel, es[0].name, k); }
    }
  }

  function Laid(st: State, disk: Disk, summary: Summary): State {
    State(false, st.disk + disk, Plus(st.summary, summary))
  }

  lemma ReplayOne(st: State, rel: seq<string>, h: Record, body: Bytes, made: Object, count: Summary)
    requires !st.first && Makeable(st.disk, rel) && SafeNames(rel) && h.p == Some(Join(rel))
    requires match h.t
             case D => made == Folder && count == Summary(0, 1, 0, 0)
             case F => made == Regular(body) && count == Summary(1, 0, 0, |body|)
             case L => h.l.Some? && made == Symlink(h.l.value) && count == Summary(0, 0, 1, 0)
    ensures Replay(st, [Item(h, body)]) == Some(Laid(st, map[rel := made], count))
  {
    SafeNamesPath(rel);
    assert st.disk + map[rel := made] == st.disk[rel := made];
  }

  /** What is laid first and what is laid after it. */
  lemma LaidTwice(st: State, d: Disk, n: Summary, d': Disk, n': Summary)
    ensures Laid(Laid(st, d, n), d', n') == Laid(st, d + d', Plus(n, n'))
  {
    assert st.disk + d + d' == st.disk + (d + d');
  }

  lemma LaidNothing(st: State)
    requires !st.first
    ensures Laid(st, map[], NOTHING) == st
  {
    assert st.disk + map[] == st.disk;
  }

  /** A new directory is empty. */
  lemma NewFolderVacant(disk: Disk, rel: seq<string>, name: string)
    requires Vacant(disk, rel)
    ensures Vacant(disk + map[rel := Folder], rel + [name])
  {
    forall k | k in disk + map[rel := Folder] ensures !(rel + [name] <= k) {
      LongerPrefix(rel, name, k);
    }
  }

  lemma {:induction false} ReplayNode(c: Codec, st: State, rel: seq<string>, node: Node)
    requires !st.first && Makeable(st.disk, rel) && SafeNames(rel) && Vacant(st.disk, rel) && Archivable(c, rel, node)
    ensures Replay(st, ItemsOf(rel, node)) == Some(Laid(st, LayNode(rel, node), CountNode(node)))
    decreases node, 1
  {
    match node
    case Dir(es) => ReplayDir(c, st, rel, es);
    case File(content) =>
      ReplayOne(st, rel, FileRecord(rel, |content|), content, Regular(content), Summary(1, 0, 0, |content|));
    case Link(target) =>
      ReplayOne(st, rel, LinkRecord(rel, target), [], Symlink(target), Summary(0, 0, 1, 0));
    case Other => LaidNothing(st);
  }

  lemma {:induction false} ReplayDir(c: Codec, st: State, rel: seq<string>, es: seq<Entry>)
    requires !st.first && Makeable(st.disk, rel) && SafeNames(rel) && Vacant(st.disk, rel) && AllArchivable(c, rel, es)
    ensures Replay(st, [Item(DirRecord(rel), [])] + ItemsOfAll(rel, es)) ==
            Some(Laid(st, map[rel := Folder] + LayEntries(rel, es), Plus(Summary(0, 1, 0, 0), CountEntries(es))))
    decreases es, 1
  {
    var made := Laid(st, map[rel := Folder], Summary(0, 1, 0, 0));
    ReplayOne(st, rel, DirRecord(rel), [], Folder, Summary(0, 1, 0, 0));
    ReplayAppend(st, [Item(DirRecord(rel), [])], ItemsOfAll(rel, es));
    forall i | 0 <= i < |es| ensures Vacant(made.disk, rel + [es[i].name]) {
      NewFolderVacant(st.disk, rel, es[i].name);
    }
    ReplayEntries(c, made, rel, es);
    LaidTwice(st, map[rel := Folder], Summary(0, 1, 0, 0), LayEntries(rel, es), CountEntries(es));
  }

  lemma {:induction false} ReplayEntries(c: Codec, st: State, rel: seq<string>, es: seq<Entry>)
    requires !st.first && rel in st.disk && st.disk[rel] == Folder && SafeNames(rel) && AllArchivable(c, rel, es)
    requires forall i | 0 <= i < |es| :: Vacant(st.disk, rel + [es[i].name])
    ensures Replay(st, ItemsOfAll(rel, es)) == Some(Laid(st, LayEntries(rel, es), CountEntries(es)))
    decreases es, 0
  {
    if es == [] {
      LaidNothing(st);
    } else {
      var first, node := rel + [es[0].name], es[0].node;
      var disk, count := LayNode(first, node), CountNode(node);
      assert Vacant(st.disk, first) && first[..|first| - 1] == rel;
      ReplayNode(c, st, first, node);
      ReplayAppend(st, ItemsOf(first, node), ItemsOfAll(rel, es[1..]));
      OthersVacant(st.disk, rel, es);
      ReplayEntries(c, Laid(st, disk, count), rel, es[1..]);
      LaidTwice(st, disk, count, LayEntries(rel, es[1..]), CountEntries(es[1..]));
    }
  }

  /** Laying the first entry leaves the directory, and the places of the others. */
  lemma OthersVacant(disk: Disk, rel: seq<string>, es: seq<Entry>)
    requires es != [] && rel in disk && disk[rel] == Folder
    requires forall i | 0 <= i < |es| :: Vacant(disk, rel + [es[i].name])
    requires forall i | 1 <= i < |es| :: es[i].name != es[0].name
    ensures var disk' := disk + LayNode(rel + [es[0].name], es[0].node);
            && rel in disk' && disk'[rel] == Folder
            && forall i | 0 <= i < |es[1..]| :: Vacant(disk', rel + [es[1..][i].name])
  {
    var first := rel + [es[0].name];
    LaidUnder(first, es[0].node);
    assert !(first <= rel);
    forall i | 0 <= i < |es[1..]|
      ensures Vacant(disk + LayNode(first, es[0].node), rel + [es[1..][i].name])
    {
      StillVacant(disk, LayNode(first, es[0].node), rel, es[0].name, es[i + 1].name);
    }
  }

  lemma StillVacant(disk: Disk, laid: Disk, rel: seq<string>, name: string, other: string)
    requires Vacant(disk, rel + [other]) && other != name && forall k | k in laid :: rel + [name] <= k
    ensures Vacant(disk + laid, rel + [other])
  {
    forall k | k in laid ensures !(rel + [other] <= k) {
      assert (rel + [name])[|rel|] == name == k[|rel|];
      assert (rel + [other])[|rel|] == other;
    }
  }

  /** The archive of a tree holds the root's entry and the tree's, and nothing else. */
  lemma ItemsOfTree(c: Codec, es: seq<Entry>)
    requires AllArchivable(c, [], es) && Encodes(c, DirRecord([]))
    ensures MAGIC <= EncodeTree(c, es)
    ensures Items(c, EncodeTree(c, es)[|MAGIC|..]) == Some(([Item(DirRecord([]), [])] + ItemsOfAll([], es), []))
  {
    var root, body := Prefixed(c.encode(DirRecord([]))), EncodeEntries(c, [], es);
    assert EncodeTree(c, es)[|MAGIC|..] == root + [] + (body + Header(0));
    ReadItem(c, DirRecord([]), [], body + Header(0));
    ReadEntries(c, [], es, Header(0));
    EndMarker(c);
    assert ItemsOfAll([], es) + [] == ItemsOfAll([], es);
  }

  lemma EndMarker(c: Codec)
    ensures Items(c, Header(0)) == Some(([], []))
  {
    HeaderRoundTrip(0);
    assert Header(0)[HEADER_SIZE..] == [];
  }

  lemma RootFirst(rest: seq<Item>)
    ensures Replay(FRESH, [Item(DirRecord([]), [])] + rest) == Replay(FRESH.(first := false), rest)
  {
    var items := [Item(DirRecord([]), [])] + rest;
    assert items[0].record == DirRecord([]) && items[1..] == rest;
    assert Accept(FRESH, items[0]) == Some(FRESH.(first := false));
  }

  lemma ReplayTree(c: Codec, begun: State, root: seq<string>, es: seq<Entry>)
    requires begun == FRESH.(first := false) && root == [] && AllArchivable(c, root, es)
    ensures Replay(begun, ItemsOfAll(root, es)) == Some(State(false, begun.disk + LayEntries(root, es),
            CountEntries(es)))
  {
    assert forall i | 0 <= i < |es| :: Vacant(begun.disk, root + [es[i].name]);
    ReplayEntries(c, begun, root, es);
    PlusNothing(CountEntries(es));
  }

  lemma PlusNothing(n: Summary)
    ensures Plus(NOTHING, n) == n
  {
  }

  /** Extracting the encoded archive of any tree rebuilds the tree, with a summary
      that counts it. */
  lemma RoundTrip(c: Codec, es: seq<Entry>)
    requires AllArchivable(c, [], es) && Encodes(c, DirRecord([]))
    ensures Extract(c, EncodeTree(c, es)) ==
            Some(State(false, map[[] := Folder] + LayEntries([], es), CountEntries(es)))
  {
    ItemsOfTree(c, es);
    RootFirst(ItemsOfAll([], es));
    ReplayTree(c, FRESH.(first := false), [], es);
  }
}
