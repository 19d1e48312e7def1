/** Extraction as it runs on a stream: exact and partial reads over whatever chunks
    arrive, one entry after the other. */
module ArchiveReader {
  import opened Wrappers
  import opened Frames
  import opened Paths
  import opened Archive

  function Concat(chunks: seq<Bytes>): Bytes {
    if chunks == [] then [] else chunks[0] + Concat(chunks[1..])
  }

  class ByteStreamReader {
    /** The chunks the stream will still deliver. */
    var incoming: seq<Bytes>
    var buffer: Bytes
    var done: bool

    ghost predicate Valid()
      reads this
    {
      done ==> incoming == []
    }

    /** All bytes not read yet. */
    ghost function Unread(): Bytes
      reads this
    {
      buffer + Concat(incoming)
    }

    constructor (chunks: seq<Bytes>)
      ensures Valid() && Unread() == Concat(chunks)
    {
      incoming, buffer, done := chunks, [], false;
    }

    method Fill() returns (more: bool)
      requires Valid()
      modifies this
      ensures Valid() && Unread() == old(Unread())
      ensures more ==> !old(done) && |incoming| < |old(incoming)| && !done
      ensures !more ==> done && incoming == [] && buffer == old(buffer)
    {
      if done { return false; }
      if incoming == [] {
        done := true;
        return false;
      }
      Associates(buffer, incoming[0], Concat(incoming[1..]));
      buffer := buffer + incoming[0];
      incoming := incoming[1..];
      return true;
    }

    method AtEnd() returns (end: bool)
      requires Valid()
      modifies this
      ensures Valid() && Unread() == old(Unread())
      ensures end <==> Unread() == []
    {
      while buffer == [] && !done
        invariant Valid() && Unread() == old(Unread())
        decreases !done, |incoming|
      {
        var _ := Fill();
      }
      assert buffer == [] ==> Unread() == [];
      return buffer == [] && done;
    }

    /** Exactly `n` bytes, or None of a stream that ends before. */
    method ReadExact(n: nat) returns (r: Option<Bytes>)
      requires Valid()
      modifies this
      ensures Valid() && (r.Some? <==> |old(Unread())| >= n)
      ensures r.Some? ==> r.value == old(Unread())[..n] && Unread() == old(Unread())[n..]
    {
      while |buffer| < n
        invariant Valid() && Unread() == old(Unread())
        decreases |incoming|
      {
        var more := Fill();
        if !more { return None; }
      }
      r := Some(buffer[..n]);
      assert Unread()[..n] == buffer[..n] && Unread()[n..] == buffer[n..] + Concat(incoming);
      buffer := buffer[n..];
    }

    /** Some bytes, at most `max`. */
    method ReadSome(max: nat) returns (r: Option<Bytes>)
      requires Valid() && max > 0
      modifies this
      ensures Valid() && (r.Some? <==> old(Unread()) != [])
      ensures r.Some? ==> 0 < |r.value| <= max && old(Unread()) == r.value + Unread()
    {
      while buffer == []
        invariant Valid() && Unread() == old(Unread())
        decreases |incoming|
      {
        var more := Fill();
        if !more {
          assert Unread() == [];
          return None;
        }
      }
      var take := if max < |buffer| then max else |buffer|;
      r := Some(buffer[..take]);
      Associates(buffer[..take], buffer[take..], Concat(incoming));
      assert buffer == buffer[..take] + buffer[take..];
      assert Unread() != [];
      buffer := buffer[take..];
    }

    /** readHeader: None is the end marker, Err a stream that is not an archive. */
    method ReadHeader(c: Codec) returns (r: Result<Option<Record>, string>)
      requires Valid()
      modifies this
      ensures Valid()
      ensures match Archive.ReadHeader(c, old(Unread()))
              case Broken => r.Err?
              case End(rest) => r == Ok(None) && Unread() == rest
              case More(h, rest) => r == Ok(Some(h)) && Unread() == rest
    {
      ghost var b := Unread();
      var length := ReadExact(HEADER_SIZE);
      if length.None? { return Err("Truncated archive"); }
      var n := FrameLength(length.value);
      assert FrameLength(b) == n;
      if n == 0 { return Ok(None); }
      if n > MAX_HEADER { return Err("Header too long"); }
      ghost var b' := Unread();
      var json := ReadExact(n);
      if json.None? { return Err("Truncated archive"); }
      assert b'[..n] == b[HEADER_SIZE..HEADER_SIZE + n] && b'[n..] == b[HEADER_SIZE + n..];
      var parsed := c.decode(json.value);
      if parsed.None? { return Err("Malformed entry header"); }
      return Ok(Some(parsed.value));
    }

    /** writeFileBody: the body in whatever pieces come. */
    method ReadBody(size: nat) returns (body: Option<Bytes>)
      requires Valid()
      modifies this
      ensures Valid() && (body.Some? <==> |old(Unread())| >= size)
      ensures body.Some? ==> body.value == old(Unread())[..size] && Unread() == old(Unread())[size..]
    {
      var written: Bytes := [];
      var remaining := size;
      while remaining > 0
        invariant Valid() && 0 <= remaining && |written| + remaining == size
        invariant written + Unread() == old(Unread())
      {
        var chunk := ReadSome(remaining);
        if chunk.None? { return None; }
        Associates(written, chunk.value, Unread());
        written := written + chunk.value;
        remaining := remaining - |chunk.value|;
      }
      ghost var all := old(Unread());
      assert all == written + Unread() && |written| == size;
      return Some(written);
    }
  }

  // --- The path registry ------------------------------------------------------------

  predicate HasFileAncestor(seen: map<seq<string>, Kind>, rel: seq<string>) {
    exists n | 0 < n < |rel| :: rel[..n] in seen && seen[rel[..n]] != D
  }

  class PathRegistry {
    var seen: map<seq<string>, Kind>

    constructor ()
      ensures seen == map[]
    {
      seen := map[];
    }

    /** Refuses a path seen before, and one under a path that is not a directory. */
    method Add(rel: seq<string>, t: Kind) returns (ok: bool)
      modifies this
      ensures ok <==> rel !in old(seen) && !HasFileAncestor(old(seen), rel)
      ensures seen == if ok then old(seen)[rel := t] else old(seen)
    {
      if rel in seen { return false; }
      var i := 1;
      while i < |rel|
        invariant 1 <= i
        invariant forall n | 0 < n < i && n < |rel| :: !(rel[..n] in seen && seen[rel[..n]] != D)
      {
        if rel[..i] in seen && seen[rel[..i]] != D { return false; }
        i := i + 1;
      }
      seen := seen[rel := t];
      return true;
    }
  }

  function KindOf(o: Object): Kind {
    match o
    case Folder => D
    case Regular(_) => F
    case Symlink(_) => L
  }

  function Kinds(disk: Disk): map<seq<string>, Kind> { map k | k in disk :: KindOf(disk[k]) }

  /** Whatever is on the disk hangs from its root by directories. */
  predicate WellRooted(disk: Disk) {
    && [] in disk && disk[[]] == Folder
    && forall k | k in disk && k != [] :: k[..|k| - 1] in disk && disk[k[..|k| - 1]] == Folder
  }

  lemma {:induction false} FolderAncestors(disk: Disk, k: seq<string>, n: nat)
    requires WellRooted(disk) && k in disk && n < |k|
    ensures k[..n] in disk && disk[k[..n]] == Folder
    decreases |k|
  {
    var parent := k[..|k| - 1];
    if n < |parent| {
      FolderAncestors(disk, parent, n);
      assert parent[..n] == k[..n];
    } else {
      assert k[..n] == parent;
    }
  }

  /** What the registry refuses could not be made anyway. */
  lemma RegistryAgrees(disk: Disk, rel: seq<string>)
    requires WellRooted(disk)
    ensures Makeable(disk, rel) ==> rel !in Kinds(disk) && !HasFileAncestor(Kinds(disk), rel)
  {
    if Makeable(disk, rel) {
      var parent := rel[..|rel| - 1];
      forall n | 0 < n < |rel| ensures rel[..n] in disk && disk[rel[..n]] == Folder {
        if n < |parent| {
          FolderAncestors(disk, parent, n);
          assert parent[..n] == rel[..n];
        } else {
          assert rel[..n] == parent;
        }
      }
    }
  }

  // --- Extraction ---------------------------------------------------------------------

  /** What extraction makes of the rest of the stream. */
  function Remainder(c: Codec, st: State, b: Bytes): Option<State> {
    match Items(c, b)
    case None => None
    case Some((items, rest)) => if rest == [] then Replay(st, items) else None
  }

  /** One turn of the loop. */
  lemma RemainderStep(c: Codec, st: State, b: Bytes)
    ensures match Archive.ReadHeader(c, b)
            case Broken => Remainder(c, st, b) == None
            case End(rest) => Remainder(c, st, b) == if rest == [] then Some(st) else None
            case More(h, rest) =>
              Remainder(c, st, b) ==
              match BodyLength(h)
              case None => None
              case Some(n) =>
                if |rest| < n then None
                else match Accept(st, Item(h, rest[..n]))
                     case None => None
                     case Some(st') => Remainder(c, st', rest[n..])
  {
    match Archive.ReadHeader(c, b)
    case Broken =>
    case End(_) =>
    case More(h, rest) =>
      if BodyLength(h).Some? && BodyLength(h).value <= |rest| {
        var n := BodyLength(h).value;
        match Items(c, rest[n..])
        case None =>
        case Some((items, left)) =>
          assert ([Item(h, rest[..n])] + items)[1..] == items;
      }
  }

  /** The registry mirrors what has been made, once the root has been read. */
  ghost predicate Mirrors(st: State, seen: map<seq<string>, Kind>) {
    && WellRooted(st.disk)
    && (if st.first then st.disk == map[[] := Folder] && seen == map[] else seen == Kinds(st.disk))
  }

  lemma MirrorsMade(st: State, rel: seq<string>, o: Object)
    requires Mirrors(st, Kinds(st.disk)) && !st.first && Makeable(st.disk, rel)
    ensures WellRooted(st.disk[rel := o]) && Kinds(st.disk[rel := o]) == Kinds(st.disk)[rel := KindOf(o)]
  {
  }

  datatype Turn = Refused | Ended | Continued

  class Extractor {
    var disk: Disk
    var summary: Summary
    var firstEntry: bool
    var registry: PathRegistry
    const codec: Codec

    ghost function View(): State
      reads this
    {
      State(firstEntry, disk, summary)
    }

    ghost predicate Valid()
      reads this, registry
    {
      Mirrors(View(), registry.seen)
    }

    constructor (c: Codec)
      ensures Valid() && View() == FRESH && codec == c && fresh(registry)
    {
      codec := c;
      disk, summary, firstEntry := map[[] := Folder], NOTHING, true;
      registry := new PathRegistry();
    }

    /** The checks on a header before anything is written for it. */
    method Admit(h: Record) returns (rel: Option<seq<string>>)
      requires Valid()
      modifies this`firstEntry, registry
      ensures rel.Some? ==> h.p.Some? && SafePath(h.p.value) && rel.value == Segments(h.p.value)
      ensures rel.None? ==> forall body :: Accept(old(View()), Item(h, body)) == None
      ensures rel.Some? && old(firstEntry) ==>
                !firstEntry && Valid() && forall body :: Accept(old(View()), Item(h, body)) == Some(View())
      ensures rel.Some? && !old(firstEntry) ==>
                !firstEntry && registry.seen == old(registry.seen)[rel.value := h.t] && rel.value !in old(registry.seen)
    {
      if h.p.None? || !SafePath(h.p.value) { return None; }
      var path := Segments(h.p.value);
      if firstEntry && (path != [] || h.t != D) { return None; }
      RegistryAgrees(disk, path);
      var first := firstEntry;
      firstEntry := false;
      var ok := registry.Add(path, h.t);
      if !ok { return None; }
      if first { assert registry.seen == Kinds(disk); }
      return Some(path);
    }

    /** The object of an admitted entry; it fails when its parent is no directory. */
    method MakeObject(h: Record, rel: seq<string>, body: Bytes) returns (ok: bool)
      requires !firstEntry && h.p.Some? && SafePath(h.p.value) && rel == Segments(h.p.value)
      requires rel !in Kinds(disk) && registry.seen == Kinds(disk)[rel := h.t] && WellRooted(disk)
      modifies this`disk, this`summary
      ensures ok <==> Accept(old(View()), Item(h, body)).Some?
      ensures ok ==> Valid() && Accept(old(View()), Item(h, body)) == Some(View())
    {
      if !Makeable(disk, rel) || (h.t == L && h.l.None?) { return false; }
      var made := match h.t
                    case D => Folder
                    case L => Symlink(h.l.value)
                    case F => Regular(body);
      MirrorsMade(View(), rel, made);
      disk := disk[rel := made];
      summary := match h.t
                 case D => Plus(summary, Summary(0, 1, 0, 0))
                 case L => Plus(summary, Summary(0, 0, 1, 0))
                 case F => Plus(summary, Summary(1, 0, 0, |body|));
      return true;
    }

    /** One entry: admitted, its body read, its object made. */
    method ExtractEntry(h: Record, reader: ByteStreamReader) returns (ok: bool)
      requires Valid() && reader.Valid()
      modifies this`disk, this`summary, this`firstEntry, registry, reader
      ensures reader.Valid()
      ensures ok <==> match BodyLength(h)
                      case None => false
                      case Some(n) =>
                        n <= |old(reader.Unread())| && Accept(old(View()), Item(h, old(reader.Unread())[..n])).Some?
      ensures ok ==> && Valid() && reader.Unread() == old(reader.Unread())[BodyLength(h).value..]
                     && Accept(old(View()), Item(h, old(reader.Unread())[..BodyLength(h).value])) == Some(View())
    {
      var first := firstEntry;
      ghost var was, b := View(), reader.Unread();
      var rel := Admit(h);
      if rel.None? { return false; }
      assert reader.Unread() == b;
      if first {
        assert BodyLength(h) == Some(0) && b[0..] == b by {
          assert Accept(was, Item(h, [])).Some?;
        }
        return true;
      }
      var length := BodyLength(h);
      if length.None? { return false; }
      var body := reader.ReadBody(length.value);
      if body.None? { return false; }
      ok := MakeObject(h, rel.value, body.value);
    }

    /** One turn of the loop. */
    method ExtractNext(reader: ByteStreamReader) returns (turn: Turn)
      requires Valid() && reader.Valid()
      modifies this`disk, this`summary, this`firstEntry, registry, reader
      ensures reader.Valid() && (!turn.Refused? ==> Valid())
      ensures turn.Continued? ==>
                && |reader.Unread()| < |old(reader.Unread())|
                && Remainder(codec, View(), reader.Unread()) == Remainder(codec, old(View()), old(reader.Unread()))
      ensures turn.Ended? ==>
                Remainder(codec, old(View()), old(reader.Unread()))
                == if reader.Unread() == [] then Some(View()) else None
      ensures turn.Refused? ==> Remainder(codec, old(View()), old(reader.Unread())) == None
    {
      RemainderStep(codec, View(), reader.Unread());
      var header := reader.ReadHeader(codec);
      if header.Err? { return Refused; }
      if header.value.None? { return Ended; }
      var accepted := ExtractEntry(header.value.value, reader);
      if !accepted { return Refused; }
      return Continued;
    }

    method ExtractEntries(reader: ByteStreamReader) returns (ok: bool)
      requires Valid() && reader.Valid()
      modifies this`disk, this`summary, this`firstEntry, registry, reader
      ensures ok <==> Remainder(codec, old(View()), old(reader.Unread())).Some?
      ensures ok ==> Remainder(codec, old(View()), old(reader.Unread())) == Some(View())
    {
      ghost var goal := Remainder(codec, View(), reader.Unread());
      var turn := Continued;
      while turn.Continued?
        invariant reader.Valid() && (!turn.Refused? ==> Valid())
        invariant match turn
                  case Continued => goal == Remainder(codec, View(), reader.Unread())
                  case Ended => goal == if reader.Unread() == [] then Some(View()) else None
                  case Refused => goal == None
        decreases turn.Continued?, |reader.Unread()|
      {
        turn := ExtractNext(reader);
      }
      if turn.Refused? { return false; }
      ok := reader.AtEnd();
    }

    /** extractTree: whatever chunks the bytes come in, the same tree and summary, or
        the same refusal. */
    method ExtractTree(chunks: seq<Bytes>) returns (ok: bool)
      requires Valid() && View() == FRESH
      modifies this`disk, this`summary, this`firstEntry, registry
      ensures ok <==> Extract(codec, Concat(chunks)).Some?
      ensures ok ==> Extract(codec, Concat(chunks)) == Some(View())
      // Nothing has been made outside the target directory.
      ensures ok ==> AllInside(disk)
    {
      var reader := new ByteStreamReader(chunks);
      var magic := reader.ReadExact(|MAGIC|);
      if magic.None? || magic.value != MAGIC { return false; }
      ok := ExtractEntries(reader);
      if ok { ExtractsInside(codec, Concat(chunks)); }
    }
  }
}
