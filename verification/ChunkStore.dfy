/** The chunk table refines one flat byte string per inode: pwrite overwrites with
    zero gap-fill, truncate cuts or extends with zeros, and nothing else moves. */
module ChunkStore {
  import opened Wrappers
  import opened DentryGraph
  import opened Tables
  import opened NamespaceInvariants
  import opened NamespaceRuns

  // --- The flat file -------------------------------------------------------------

  /** An absent row, and a byte past the end of its row, read as zero. */
  function ByteAt(data: map<(int, int), seq<Byte>>, i: int, chunkSize: int, j: nat): Byte
    requires chunkSize > 0
  {
    var row := Chunk(data, i, j / chunkSize);
    if j % chunkSize < |row| then row[j % chunkSize] else 0
  }

  function Content(t: Tables, i: int, chunkSize: int): seq<Byte>
    requires chunkSize > 0 && i in t.inode && t.inode[i].size >= 0
  {
    seq(t.inode[i].size, j requires j >= 0 => ByteAt(t.data, i, chunkSize, j))
  }

  function Overwrite(s: seq<Byte>, offset: nat, bytes: seq<Byte>): (r: seq<Byte>)
    ensures |r| == Max(|s|, offset + |bytes|)
    ensures r[offset..offset + |bytes|] == bytes
  {
    seq(Max(|s|, offset + |bytes|), j requires 0 <= j < Max(|s|, offset + |bytes|) =>
      if offset <= j < offset + |bytes| then bytes[j - offset]
      else if j < |s| then s[j]
      else 0)
  }

  function Resize(s: seq<Byte>, n: nat): seq<Byte> {
    if n <= |s| then s[..n] else s + Zeros(n - |s|)
  }

  // --- The invariant ---------------------------------------------------------------

  predicate RowFits(chunkSize: int, c: int, length: int, size: int) {
    0 <= c && length <= chunkSize && c * chunkSize + length <= size
  }

  /** Every row belongs to an inode, is at most one chunk long, and holds no byte at
      or past the inode's size. */
  ghost predicate WellChunked(t: Tables, chunkSize: int) {
    && chunkSize > 0
    && (forall i | i in t.inode :: t.inode[i].size >= 0)
    && (forall k | k in t.data :: k.0 in t.inode && RowFits(chunkSize, k.1, |t.data[k]|, t.inode[k.0].size))
  }

  // --- Arithmetic --------------------------------------------------------------------

  lemma DivMod(j: int, n: int)
    requires n > 0
    ensures j == j / n * n + j % n && 0 <= j % n < n
  {
  }

  lemma MulMono(a: int, b: int, n: int)
    requires a <= b && n > 0
    ensures a * n <= b * n
  {
  }

  lemma QuotientOrder(q: int, r: int, q': int, r': int, n: int)
    requires 0 <= r < n && 0 <= r' < n && q * n + r <= q' * n + r'
    ensures q <= q'
  {
    if q > q' { MulMono(q' + 1, q, n); }
  }

  lemma DivMono(a: int, b: int, n: int)
    requires a <= b && n > 0
    ensures a / n <= b / n
  {
    DivMod(a, n);
    DivMod(b, n);
    QuotientOrder(a / n, a % n, b / n, b % n, n);
  }

  lemma ChunkOf(c: int, o: int, n: int)
    requires 0 <= o < n
    ensures (c * n + o) / n == c && (c * n + o) % n == o
  {
    var j := c * n + o;
    if j / n < c { MulMono(j / n + 1, c, n); }
    if j / n > c { MulMono(c + 1, j / n, n); }
  }

  // --- pwrite -----------------------------------------------------------------------

  /** Writes that meet a byte meet its chunk. */
  lemma MeetsChunk(offset: int, length: int, chunkSize: int, j: int)
    requires 0 < chunkSize && offset <= j < offset + length
    ensures offset / chunkSize <= j / chunkSize <= (offset + length - 1) / chunkSize
  {
    DivMono(offset, j, chunkSize);
    DivMono(j, offset + length - 1, chunkSize);
  }

  lemma MergedByte(prior: seq<Byte>, base: int, chunkSize: int, offset: int, bytes: seq<Byte>, o: int)
    requires 0 <= o < chunkSize && |prior| <= chunkSize
    ensures var row := Merged(prior, base, chunkSize, offset, bytes);
            (if o < |row| then row[o] else 0) ==
            if offset <= base + o < offset + |bytes| then bytes[base + o - offset]
            else if o < |prior| then prior[o] else 0
  {
  }

  lemma WrittenChunk(data: map<(int, int), seq<Byte>>, i: int, chunkSize: int, offset: int, bytes: seq<Byte>, c: int)
    requires 0 <= offset && 0 < chunkSize && |bytes| > 0
    ensures Chunk(Written(data, i, chunkSize, offset, bytes), i, c) ==
            if offset / chunkSize <= c <= (offset + |bytes| - 1) / chunkSize
            then Merged(Chunk(data, i, c), c * chunkSize, chunkSize, offset, bytes) else Chunk(data, i, c)
  {
  }

  lemma WrittenByte(data: map<(int, int), seq<Byte>>, i: int, chunkSize: int, offset: int, bytes: seq<Byte>, j: nat)
    requires 0 <= offset && 0 < chunkSize && |bytes| > 0
    requires |Chunk(data, i, j / chunkSize)| <= chunkSize
    ensures ByteAt(Written(data, i, chunkSize, offset, bytes), i, chunkSize, j) ==
            if offset <= j < offset + |bytes| then bytes[j - offset] else ByteAt(data, i, chunkSize, j)
  {
    var c := j / chunkSize;
    WrittenChunk(data, i, chunkSize, offset, bytes, c);
    var prior, row := Chunk(data, i, c), Chunk(Written(data, i, chunkSize, offset, bytes), i, c);
    ByteOfRow(prior, row, c, chunkSize, offset, bytes, j);
  }

  /** A byte of the row of chunk `c` after the write, when the write meets it and when it
      does not. */
  lemma ByteOfRow(prior: seq<Byte>, row: seq<Byte>, c: int, chunkSize: int, offset: int, bytes: seq<Byte>, j: nat)
    requires 0 <= offset && 0 < chunkSize && |bytes| > 0 && c == j / chunkSize && |prior| <= chunkSize
    requires row == if offset / chunkSize <= c <= (offset + |bytes| - 1) / chunkSize
                    then Merged(prior, c * chunkSize, chunkSize, offset, bytes) else prior
    ensures (if j % chunkSize < |row| then row[j % chunkSize] else 0) ==
            if offset <= j < offset + |bytes| then bytes[j - offset]
            else if j % chunkSize < |prior| then prior[j % chunkSize] else 0
  {
    DivMod(j, chunkSize);
    if offset <= j < offset + |bytes| { MeetsChunk(offset, |bytes|, chunkSize, j); }
    MergedByte(prior, c * chunkSize, chunkSize, offset, bytes, j % chunkSize);
  }

  lemma MergedFits(prior: seq<Byte>, c: int, chunkSize: int, offset: int, bytes: seq<Byte>, size: int)
    requires 0 <= offset && 0 < chunkSize && |bytes| > 0 && |prior| <= chunkSize
    requires prior != [] ==> c * chunkSize + |prior| <= size
    requires offset / chunkSize <= c <= (offset + |bytes| - 1) / chunkSize
    ensures RowFits(chunkSize, c, |Merged(prior, c * chunkSize, chunkSize, offset, bytes)|, Max(size, offset + |bytes|))
  {
    DivMod(offset + |bytes| - 1, chunkSize);
    MulMono(c, (offset + |bytes| - 1) / chunkSize, chunkSize);
    DivMod(offset, chunkSize);
    if c < 0 { MulMono(offset / chunkSize, -1, chunkSize); }
  }

  lemma WrittenRows(t: Tables, i: int, chunkSize: int, offset: int, bytes: seq<Byte>, size: int, k: (int, int))
    requires WellChunked(t, chunkSize) && i in t.inode && 0 <= offset && |bytes| > 0
    requires size == Max(t.inode[i].size, offset + |bytes|)
    requires k in Written(t.data, i, chunkSize, offset, bytes)
    ensures k.0 in t.inode
    ensures RowFits(chunkSize, k.1, |Written(t.data, i, chunkSize, offset, bytes)[k]|,
                    if k.0 == i then size else t.inode[k.0].size)
  {
    if k.0 == i && offset / chunkSize <= k.1 <= (offset + |bytes| - 1) / chunkSize {
      MergedFits(Chunk(t.data, i, k.1), k.1, chunkSize, offset, bytes, t.inode[i].size);
    }
  }

  lemma PwriteWellChunked(t: Tables, i: int, offset: int, bytes: seq<Byte>, chunkSize: int, now: Time)
    requires WellChunked(t, chunkSize)
    requires Pwrite(t, i, offset, bytes, chunkSize, now).outcome.Status?
    ensures WellChunked(Pwrite(t, i, offset, bytes, chunkSize, now).tables, chunkSize)
  {
    var t' := Pwrite(t, i, offset, bytes, chunkSize, now).tables;
    forall k | k in t'.data
      ensures k.0 in t'.inode && RowFits(chunkSize, k.1, |t'.data[k]|, t'.inode[k.0].size)
    {
      WrittenRows(t, i, chunkSize, offset, bytes, Max(t.inode[i].size, offset + |bytes|), k);
    }
  }

  /** A successful pwrite overwrites the flat file and leaves every other inode's
      content, and the shape of the chunk table, as they were. */
  lemma PwriteRefines(t: Tables, i: int, offset: int, bytes: seq<Byte>, chunkSize: int, now: Time)
    requires WellChunked(t, chunkSize)
    requires Pwrite(t, i, offset, bytes, chunkSize, now).outcome.Status?
    ensures var t' := Pwrite(t, i, offset, bytes, chunkSize, now).tables;
            && WellChunked(t', chunkSize)
            && i in t.inode && i in t'.inode && offset >= 0
            && Content(t', i, chunkSize) == Overwrite(Content(t, i, chunkSize), offset, bytes)
            && forall x | x in t.inode && x != i ::
                 x in t'.inode && Content(t', x, chunkSize) == Content(t, x, chunkSize)
  {
    PwriteWellChunked(t, i, offset, bytes, chunkSize, now);
    PwriteOwnContent(t, Pwrite(t, i, offset, bytes, chunkSize, now).tables, i, offset, bytes, chunkSize);
    PwriteOtherContents(t, Pwrite(t, i, offset, bytes, chunkSize, now).tables, i, offset, bytes, chunkSize);
  }

  lemma PwriteOtherContents(t: Tables, t': Tables, i: int, offset: int, bytes: seq<Byte>, chunkSize: int)
    requires WellChunked(t, chunkSize) && i in t.inode && offset >= 0 && bytes != []
    requires t'.data == Written(t.data, i, chunkSize, offset, bytes)
    requires i in t'.inode && t'.inode == t.inode[i := t'.inode[i]]
    ensures forall x | x in t.inode && x != i :: x in t'.inode && Content(t', x, chunkSize) == Content(t, x, chunkSize)
  {
    forall x | x in t.inode && x != i
      ensures x in t'.inode && Content(t', x, chunkSize) == Content(t, x, chunkSize)
    {
      OtherContent(t, t', x, chunkSize);
    }
  }

  lemma PwriteOwnContent(t: Tables, t': Tables, i: int, offset: int, bytes: seq<Byte>, chunkSize: int)
    requires WellChunked(t, chunkSize) && i in t.inode && i in t'.inode && offset >= 0 && bytes != []
    requires t'.data == Written(t.data, i, chunkSize, offset, bytes)
    requires t'.inode[i].size == Max(t.inode[i].size, offset + |bytes|)
    ensures Content(t', i, chunkSize) == Overwrite(Content(t, i, chunkSize), offset, bytes)
  {
    forall j: nat | j < t'.inode[i].size
      ensures Content(t', i, chunkSize)[j] == Overwrite(Content(t, i, chunkSize), offset, bytes)[j]
    {
      if (i, j / chunkSize) in t.data {
        assert RowFits(chunkSize, j / chunkSize, |t.data[(i, j / chunkSize)]|, t.inode[i].size);
      }
      WrittenByte(t.data, i, chunkSize, offset, bytes, j);
      if j >= t.inode[i].size { PastSize(t, i, chunkSize, j); }
    }
  }

  /** No stored byte lies at or past the size. */
  lemma PastSize(t: Tables, i: int, chunkSize: int, j: nat)
    requires WellChunked(t, chunkSize) && i in t.inode && j >= t.inode[i].size
    ensures ByteAt(t.data, i, chunkSize, j) == 0
  {
    DivMod(j, chunkSize);
    if (i, j / chunkSize) in t.data {
      assert RowFits(chunkSize, j / chunkSize, |t.data[(i, j / chunkSize)]|, t.inode[i].size);
    }
  }

  lemma OtherContent(t: Tables, t': Tables, x: int, chunkSize: int)
    requires chunkSize > 0 && x in t.inode && x in t'.inode
    requires t.inode[x].size >= 0 && t'.inode[x].size == t.inode[x].size
    requires forall c :: Chunk(t'.data, x, c) == Chunk(t.data, x, c)
    ensures Content(t', x, chunkSize) == Content(t, x, chunkSize)
  {
    forall j: nat | j < t.inode[x].size
      ensures Content(t', x, chunkSize)[j] == Content(t, x, chunkSize)[j]
    {
      assert Chunk(t'.data, x, j / chunkSize) == Chunk(t.data, x, j / chunkSize);
    }
  }

  // --- truncate ------------------------------------------------------------------------

  lemma CutByte(data: map<(int, int), seq<Byte>>, i: int, chunkSize: int, n: int, j: nat)
    requires 0 < chunkSize && j < n
    ensures ByteAt(Cut(data, i, chunkSize, n), i, chunkSize, j) == ByteAt(data, i, chunkSize, j)
  {
    var last, tail, c := (n - 1) / chunkSize, n % chunkSize, j / chunkSize;
    DivMono(j, n - 1, chunkSize);
    DivMod(j, chunkSize);
    DivMod(n, chunkSize);
    CutTail(n, chunkSize);
    var row := Chunk(Cut(data, i, chunkSize, n), i, c);
    if (i, c) in data {
      if c == last && 0 < tail < |data[(i, c)]| {
        assert row == data[(i, c)][..tail];
      } else {
        assert row == data[(i, c)];
      }
    }
  }

  /** Where the last chunk of an n-byte file starts. */
  lemma CutTail(n: int, chunkSize: int)
    requires 0 < chunkSize && 0 < n
    ensures var last, tail := (n - 1) / chunkSize, n % chunkSize;
            && last >= 0
            && n == last * chunkSize + (if tail == 0 then chunkSize else tail)
            && (n - 1) % chunkSize + 1 == (if tail == 0 then chunkSize else tail)
  {
    var last, tail := (n - 1) / chunkSize, n % chunkSize;
    DivMod(n - 1, chunkSize);
    var o := (n - 1) % chunkSize;
    assert n == last * chunkSize + (o + 1);
    if o + 1 == chunkSize {
      assert n == (last + 1) * chunkSize + 0;
      ChunkOf(last + 1, 0, chunkSize);
    } else {
      ChunkOf(last, o + 1, chunkSize);
    }
    if last < 0 { MulMono(last, -1, chunkSize); }
  }

  lemma CutFits(chunkSize: int, c: int, length: int, size: int, n: int)
    requires 0 < chunkSize && 0 < n && RowFits(chunkSize, c, length, size) && c <= (n - 1) / chunkSize
    ensures var tail := n % chunkSize;
            RowFits(chunkSize, c, if c == (n - 1) / chunkSize && 0 < tail < length then tail else length, n)
  {
    CutTail(n, chunkSize);
    if c < (n - 1) / chunkSize { MulMono(c + 1, (n - 1) / chunkSize, chunkSize); }
  }

  lemma CutRows(t: Tables, i: int, chunkSize: int, n: int, k: (int, int))
    requires WellChunked(t, chunkSize) && i in t.inode && 0 < n < t.inode[i].size
    requires k in Cut(t.data, i, chunkSize, n)
    ensures k in t.data
    ensures RowFits(chunkSize, k.1, |Cut(t.data, i, chunkSize, n)[k]|, if k.0 == i then n else t.inode[k.0].size)
  {
    assert RowFits(chunkSize, k.1, |t.data[k]|, t.inode[k.0].size);
    if k.0 == i { CutFits(chunkSize, k.1, |t.data[k]|, t.inode[i].size, n); }
  }

  lemma ExtendedByte(data: map<(int, int), seq<Byte>>, i: int, chunkSize: int, size: int, n: int, j: nat)
    requires 0 < chunkSize && 0 <= size < n
    requires j >= size ==> ByteAt(data, i, chunkSize, j) == 0
    ensures ByteAt(Extended(data, i, chunkSize, size, n), i, chunkSize, j) == ByteAt(data, i, chunkSize, j)
  {
    DivMod(j, chunkSize);
    if j < size { DivMono(j, size - 1, chunkSize); }
    ByteInChunk(data, i, chunkSize, size, n, j / chunkSize, j % chunkSize);
  }

  lemma ByteInChunk(data: map<(int, int), seq<Byte>>, i: int, chunkSize: int, size: int, n: int, c: int, k: int)
    requires 0 < chunkSize && 0 <= size < n && 0 <= k
    requires c > FinalChunk(size, chunkSize) && k < |Chunk(data, i, c)| ==> Chunk(data, i, c)[k] == 0
    ensures var prior, row := Chunk(data, i, c), Chunk(Extended(data, i, chunkSize, size, n), i, c);
            (if k < |row| then row[k] else 0) == if k < |prior| then prior[k] else 0
  {
    ExtendedChunk(data, i, chunkSize, size, n, c);
    SameByte(Chunk(data, i, c), Chunk(Extended(data, i, chunkSize, size, n), i, c), k);
  }

  /** Zeros after a row, or for one that reads as zero there, change no byte. */
  lemma SameByte(prior: seq<Byte>, row: seq<Byte>, k: int)
    requires k >= 0
    ensures row == prior || (|prior| <= |row| && row == prior + Zeros(|row| - |prior|))
            || (row == Zeros(|row|) && (k < |prior| ==> prior[k] == 0)) ==>
              (if k < |row| then row[k] else 0) == if k < |prior| then prior[k] else 0
  {
  }

  /** A chunk after an extension: zeros if it is new, else as it was, or zeros added. */
  lemma ExtendedChunk(data: map<(int, int), seq<Byte>>, i: int, chunkSize: int, size: int, n: int, c: int)
    requires 0 < chunkSize && 0 <= size < n
    ensures var row, prior := Chunk(Extended(data, i, chunkSize, size, n), i, c), Chunk(data, i, c);
            if FinalChunk(size, chunkSize) < c <= (n - 1) / chunkSize then row == Zeros(|row|)
            else row == prior || (|prior| <= |row| && row == prior + Zeros(|row| - |prior|))
  {
    if (i, c) in Extended(data, i, chunkSize, size, n) { ExtendedRow(data, i, chunkSize, size, n, (i, c)); }
  }

  /** Chunks from the old last one on, filled up to the new size. */
  lemma FilledFits(chunkSize: int, c: int, size: int, n: int)
    requires 0 < chunkSize && 0 <= size < n && 0 <= c && FinalChunk(size, chunkSize) <= c <= (n - 1) / chunkSize
    ensures RowFits(chunkSize, c, if c == (n - 1) / chunkSize then (n - 1) % chunkSize + 1 else chunkSize, n)
  {
    CutTail(n, chunkSize);
    if c < (n - 1) / chunkSize { MulMono(c + 1, (n - 1) / chunkSize, chunkSize); }
  }

  /** The rows after an extension, one by one. */
  lemma ExtendedRow(data: map<(int, int), seq<Byte>>, i: int, chunkSize: int, size: int, n: int, k: (int, int))
    requires 0 < chunkSize && 0 <= size < n && k in Extended(data, i, chunkSize, size, n)
    ensures var final, last := FinalChunk(size, chunkSize), (n - 1) / chunkSize;
            var row := Extended(data, i, chunkSize, size, n)[k];
            var full := if k.1 == last then (n - 1) % chunkSize + 1 else chunkSize;
            if k.0 == i && final < k.1 <= last then row == Zeros(full)
            else && k in data
                 && if k == (i, final) && size > 0 && |data[k]| < full
                    then row == data[k] + Zeros(full - |data[k]|) else row == data[k]
  {
  }

  lemma FinalBounds(size: int, n: int, chunkSize: int)
    requires 0 < chunkSize && 0 <= size < n
    ensures -1 <= FinalChunk(size, chunkSize) <= (n - 1) / chunkSize
    ensures size > 0 ==> 0 <= FinalChunk(size, chunkSize)
  {
    DivMono(0, n - 1, chunkSize);
    if size > 0 {
      DivMono(0, size - 1, chunkSize);
      DivMono(size - 1, n - 1, chunkSize);
    }
  }

  lemma ExtendedRows(t: Tables, i: int, chunkSize: int, n: int, k: (int, int))
    requires WellChunked(t, chunkSize) && i in t.inode && t.inode[i].size < n
    requires k in Extended(t.data, i, chunkSize, t.inode[i].size, n)
    ensures k.0 in t.inode
    ensures RowFits(chunkSize, k.1, |Extended(t.data, i, chunkSize, t.inode[i].size, n)[k]|,
                    if k.0 == i then n else t.inode[k.0].size)
  {
    var size := t.inode[i].size;
    var final, last := FinalChunk(size, chunkSize), (n - 1) / chunkSize;
    ExtendedRow(t.data, i, chunkSize, size, n, k);
    FinalBounds(size, n, chunkSize);
    if k.0 == i && final < k.1 <= last {
      FilledFits(chunkSize, k.1, size, n);
    } else {
      assert RowFits(chunkSize, k.1, |t.data[k]|, t.inode[k.0].size);
      if k == (i, final) { FilledFits(chunkSize, k.1, size, n); }
    }
  }

  lemma TruncatedRow(t: Tables, i: int, n: int, chunkSize: int, now: Time, k: (int, int))
    requires WellChunked(t, chunkSize)
    requires Truncate(t, i, n, chunkSize, now).outcome.Status? && Truncate(t, i, n, chunkSize, now).outcome.code > 0
    requires k in Truncate(t, i, n, chunkSize, now).tables.data
    ensures var t' := Truncate(t, i, n, chunkSize, now).tables;
            k.0 in t'.inode && RowFits(chunkSize, k.1, |t'.data[k]|, t'.inode[k.0].size)
  {
    if 0 < n < t.inode[i].size { CutRows(t, i, chunkSize, n, k); }
    else if n > t.inode[i].size { ExtendedRows(t, i, chunkSize, n, k); }
  }

  lemma TruncatedByte(t: Tables, i: int, n: int, chunkSize: int, now: Time, j: nat)
    requires WellChunked(t, chunkSize) && j < n
    requires Truncate(t, i, n, chunkSize, now).outcome.Status? && Truncate(t, i, n, chunkSize, now).outcome.code > 0
    ensures ByteAt(Truncate(t, i, n, chunkSize, now).tables.data, i, chunkSize, j) == ByteAt(t.data, i, chunkSize, j)
    ensures j >= t.inode[i].size ==> ByteAt(t.data, i, chunkSize, j) == 0
  {
    TruncatedData(t, i, n, chunkSize, now);
    var size := t.inode[i].size;
    if j >= size { PastSize(t, i, chunkSize, j); }
    ResizedByte(t.data, i, chunkSize, size, n, j);
  }

  lemma TruncatedData(t: Tables, i: int, n: int, chunkSize: int, now: Time)
    requires Truncate(t, i, n, chunkSize, now).outcome.Status? && Truncate(t, i, n, chunkSize, now).outcome.code > 0
    ensures i in t.inode && t.inode[i].size >= 0 && n >= 0 && chunkSize > 0
    ensures Truncate(t, i, n, chunkSize, now).tables.data == Truncated(t.data, i, chunkSize, t.inode[i].size, n)
  {
  }

  lemma ResizedByte(data: map<(int, int), seq<Byte>>, i: int, chunkSize: int, size: int, n: int, j: nat)
    requires 0 < chunkSize && 0 <= size && j < n && (j >= size ==> ByteAt(data, i, chunkSize, j) == 0)
    ensures ByteAt(Truncated(data, i, chunkSize, size, n), i, chunkSize, j) == ByteAt(data, i, chunkSize, j)
  {
    if n < size { CutByte(data, i, chunkSize, n, j); }
    else if n > size { ExtendedByte(data, i, chunkSize, size, n, j); }
  }

  /** Truncation touches the rows of one inode only. */
  lemma TruncatedOthers(t: Tables, i: int, n: int, chunkSize: int, now: Time, x: int, c: int)
    requires x != i
    ensures Chunk(Truncate(t, i, n, chunkSize, now).tables.data, x, c) == Chunk(t.data, x, c)
  {
    TruncateCases(t, i, n, chunkSize, now);
    if Truncate(t, i, n, chunkSize, now).tables.data != t.data {
      OtherRowsKept(t.data, i, chunkSize, t.inode[i].size, n, x, c);
    }
  }

  lemma TruncateCases(t: Tables, i: int, n: int, chunkSize: int, now: Time)
    ensures var data := Truncate(t, i, n, chunkSize, now).tables.data;
            || data == t.data
            || (chunkSize > 0 && i in t.inode && t.inode[i].size >= 0 && n >= 0
                && data == Truncated(t.data, i, chunkSize, t.inode[i].size, n))
  {
  }

  lemma OtherRowsKept(data: map<(int, int), seq<Byte>>, i: int, chunkSize: int, size: int, n: int, x: int, c: int)
    requires chunkSize > 0 && size >= 0 && n >= 0 && x != i
    ensures Chunk(Truncated(data, i, chunkSize, size, n), x, c) == Chunk(data, x, c)
  {
  }

  /** A successful truncate cuts or zero-extends the flat file and leaves every
      other inode's content, and the shape of the chunk table, as they were. */
  lemma TruncateRefines(t: Tables, i: int, n: int, chunkSize: int, now: Time)
    requires WellChunked(t, chunkSize)
    requires Truncate(t, i, n, chunkSize, now).outcome.Status? && Truncate(t, i, n, chunkSize, now).outcome.code > 0
    ensures var t' := Truncate(t, i, n, chunkSize, now).tables;
            && WellChunked(t', chunkSize)
            && i in t.inode && i in t'.inode && n >= 0
            && Content(t', i, chunkSize) == Resize(Content(t, i, chunkSize), n)
            && forall x | x in t.inode && x != i ::
                 x in t'.inode && Content(t', x, chunkSize) == Content(t, x, chunkSize)
  {
    var t' := Truncate(t, i, n, chunkSize, now).tables;
    forall k | k in t'.data
      ensures k.0 in t'.inode && RowFits(chunkSize, k.1, |t'.data[k]|, t'.inode[k.0].size)
    {
      TruncatedRow(t, i, n, chunkSize, now, k);
    }
    forall j: nat | j < n ensures Content(t', i, chunkSize)[j] == Resize(Content(t, i, chunkSize), n)[j] {
      TruncatedByte(t, i, n, chunkSize, now, j);
    }
    forall x | x in t.inode && x != i ensures Content(t', x, chunkSize) == Content(t, x, chunkSize) {
      forall c ensures Chunk(t'.data, x, c) == Chunk(t.data, x, c) { TruncatedOthers(t, i, n, chunkSize, now, x, c); }
      OtherContent(t, t', x, chunkSize);
    }
  }

  // --- Runs ------------------------------------------------------------------------------

  /** The effect of an operation on the flat files of the inodes it keeps. */
  function FlatEffect(op: Op, i: int, s: seq<Byte>): seq<Byte> {
    match op
    case OpPwrite(ino, offset, bytes, _, _) => if ino == i && offset >= 0 then Overwrite(s, offset, bytes) else s
    case OpTruncate(ino, n, _, _) => if ino == i && n >= 0 then Resize(s, n) else s
    case _ => s
  }

  predicate UsesChunkSize(op: Op, chunkSize: int) {
    match op
    case OpPwrite(_, _, _, c, _) => c == chunkSize
    case OpTruncate(_, _, c, _) => c == chunkSize
    case _ => true
  }

  /** One data operation: refused ones change nothing, successful ones have their
      flat effect on every file. */
  lemma DataStepRefines(t: Tables, op: Op, chunkSize: int)
    requires WellChunked(t, chunkSize) && (op.OpPwrite? || op.OpTruncate?) && UsesChunkSize(op, chunkSize)
    ensures var e := Apply(t, op);
            && WellChunked(e.tables, chunkSize)
            && e.tables.inode.Keys == t.inode.Keys
            && forall i | i in t.inode ::
                 i in e.tables.inode &&
                 Content(e.tables, i, chunkSize) ==
                 if Succeeded(e.outcome) then FlatEffect(op, i, Content(t, i, chunkSize)) else Content(t, i, chunkSize)
  {
    var e := Apply(t, op);
    match op
    case OpPwrite(i, offset, bytes, _, now) =>
      if Succeeded(e.outcome) { PwriteRefines(t, i, offset, bytes, chunkSize, now); }
    case OpTruncate(i, n, _, now) =>
      if Succeeded(e.outcome) { TruncateRefines(t, i, n, chunkSize, now); }
  }

  /** The other operations: the inodes that stay keep their size and their rows. */
  ghost predicate FilesKept(t: Tables, t': Tables) {
    && (forall i | i in t'.inode && i in t.inode :: t'.inode[i].size == t.inode[i].size)
    && (forall i | i in t'.inode && i !in t.inode :: t'.inode[i].size >= 0 && i >= t.nextIno)
    && t'.nextIno >= t.nextIno
    && (forall k | k in t'.data :: k in t.data && t'.data[k] == t.data[k] && k.0 in t'.inode)
    && (forall k | k in t.data && k.0 in t'.inode :: k in t'.data)
  }

  lemma FilesKeptRefines(t: Tables, t': Tables, chunkSize: int)
    requires WellChunked(t, chunkSize) && FilesKept(t, t')
    ensures WellChunked(t', chunkSize)
    ensures forall i | i in t.inode && i in t'.inode :: Content(t', i, chunkSize) == Content(t, i, chunkSize)
  {
    forall k | k in t'.data
      ensures k.0 in t'.inode && RowFits(chunkSize, k.1, |t'.data[k]|, t'.inode[k.0].size)
    {
      assert RowFits(chunkSize, k.1, |t.data[k]|, t.inode[k.0].size);
      assert k in t'.data;
      assert t'.data[k] == t.data[k];
      var i := k.0;
      assert i in t'.inode;
      assert i in t.inode;
      assert t'.inode[i].size == t.inode[i].size;
    }
    forall i | i in t.inode && i in t'.inode ensures Content(t', i, chunkSize) == Content(t, i, chunkSize) {
      OtherContent(t, t', i, chunkSize);
    }
  }

  lemma RenameKeepsFiles(t: Tables, k: Key, k': Key, now: Time)
    requires Sound(t) && Renames(t, k, k')
    ensures FilesKept(t, RenameNode(t, k.0, k.1, k'.0, k'.1, now).tables)
  {
    RenameCases(t, k, k', now);
    ClearedReady(t, k, k', now);
    var t1 := Cleared(t, k', now);
    if k' in t.dentry {
      RowNotLoop(t, k');
      UnlinkedFields(t, k', now);
    }
    assert FilesKept(t, t1);
    MoveFields(t1, k, k', now);
  }

  lemma CreateKeepsFiles(t: Tables, kind: Kind, parent: int, name: string,
                         mode: int, uid: int, gid: int, rdev: int, now: Time)
    requires Sound(t)
    ensures FilesKept(t, CreateNode(t, kind, parent, name, mode, uid, gid, rdev, now).tables)
  {
    CreateNodeFields(t, kind, parent, name, mode, uid, gid, rdev, now);
  }

  lemma TouchKeepsFiles(t: Tables, p: Path, atime: Time, mtime: Time, now: Time)
    requires Sound(t)
    ensures FilesKept(t, Touch(t, p, atime, mtime, now).tables)
  {
    var t' := Touch(t, p, atime, mtime, now).tables;
    if t' != t {
      if Resolve(t, ROOT, p).Found? {
        TouchExisting(t, p, atime, mtime, now);
        assert t'.data == t.data;
      } else {
        var k := TouchCreates(t, p, atime, mtime, now);
        assert t'.data == InsertRow(t, k, t.nextIno).data == t.data;
        FileAdded(t, t', t.nextIno);
      }
    }
  }

  lemma FileAdded(t: Tables, t': Tables, ino: int)
    requires Sound(t) && t'.data == t.data && t'.inode.Keys == t.inode.Keys + {ino}
    requires ino == t.nextIno && t'.nextIno == ino + 1 && t'.inode[ino].size == 0
    requires forall i | i in t.inode :: t'.inode[i].size == t.inode[i].size
    ensures FilesKept(t, t')
  {
  }

  lemma LinkKeepsFiles(t: Tables, op: Op)
    requires Sound(t) && (op.OpLink? || op.OpLinkPath?)
    ensures FilesKept(t, Apply(t, op).tables)
  {
    if Apply(t, op).tables != t {
      if op.OpLink? {
        AddLinkFields(t, op.source, (op.parent, op.name), op.now);
      } else {
        AddLinkFields(t, Resolve(t, ROOT, op.existing).ino,
                      (ResolveParent(t, op.path).ino, op.path[|op.path| - 1]), op.now);
      }
    }
  }

  lemma UnpinKeepsFiles(t: Tables, session: string, i: int, now: Time)
    requires Sound(t)
    ensures FilesKept(t, Unpin(t, session, i, now).tables)
  {
  }

  lemma OthersKeepFiles(t: Tables, op: Op)
    requires Sound(t) && !op.OpPwrite? && !op.OpTruncate?
    ensures FilesKept(t, Apply(t, op).tables)
  {
    match op
    case OpCreate(kind, parent, name, mode, uid, gid, rdev, now) =>
      CreateKeepsFiles(t, kind, parent, name, mode, uid, gid, rdev, now);
    case OpLink(_, _, _, _) => LinkKeepsFiles(t, op);
    case OpRename(op_, on, np, nn, now) =>
      RenameCases(t, (op_, on), (np, nn), now);
      if Renames(t, (op_, on), (np, nn)) { RenameKeepsFiles(t, (op_, on), (np, nn), now); }
    case OpTouch(p, atime, mtime, now) => TouchKeepsFiles(t, p, atime, mtime, now);
    case OpLinkPath(_, _, _) => LinkKeepsFiles(t, op);
    case OpPin(_, _, _) =>
    case OpUnpin(session, i, now) => UnpinKeepsFiles(t, session, i, now);
  }

  /** Every operation: the inodes it keeps hold the flat effect of it. */
  lemma StepRefines(t: Tables, op: Op, chunkSize: int)
    requires Sound(t) && WellChunked(t, chunkSize) && UsesChunkSize(op, chunkSize)
    ensures var e := Apply(t, op);
            && WellChunked(e.tables, chunkSize)
            && forall i | i in t.inode && i in e.tables.inode ::
                 Content(e.tables, i, chunkSize) ==
                 if Succeeded(e.outcome) then FlatEffect(op, i, Content(t, i, chunkSize)) else Content(t, i, chunkSize)
  {
    if op.OpPwrite? || op.OpTruncate? {
      DataStepRefines(t, op, chunkSize);
    } else {
      OthersKeepFiles(t, op);
      FilesKeptRefines(t, Apply(t, op).tables, chunkSize);
    }
  }

  /** The flat file of inode `i` after a run, computed from the outcomes alone. */
  ghost function FlatRun(t: Tables, ops: seq<Op>, i: int, s: seq<Byte>): seq<Byte>
    decreases |ops|
  {
    if ops == [] then s
    else
      var e := Apply(t, ops[0]);
      FlatRun(e.tables, ops[1..], i, if Succeeded(e.outcome) then FlatEffect(ops[0], i, s) else s)
  }

  /** Inode numbers are never reused, so an inode of the end that was allocated at
      the start was there all along. */
  lemma {:induction false} StillThere(t: Tables, ops: seq<Op>, i: int)
    requires Tidy(t) && CarefulRun(t, ops) && i < t.nextIno && i in Run(t, ops).inode
    ensures i in t.inode
    decreases |ops|
  {
    if ops != [] {
      CarefulApply(t, ops[0]);
      NoRevival(t, ops[0], i);
      StillThere(Apply(t, ops[0]).tables, ops[1..], i);
    }
  }

  lemma NoRevival(t: Tables, op: Op, i: int)
    requires Sound(t) && i < t.nextIno
    ensures i < Apply(t, op).tables.nextIno && (i in Apply(t, op).tables.inode ==> i in t.inode)
  {
    match op
    case OpPwrite(x, offset, bytes, c, now) => PwriteSameRows(t, x, offset, bytes, c, now);
    case OpTruncate(x, n, c, now) => TruncateSameRows(t, x, n, c, now);
    case _ => OthersKeepFiles(t, op);
  }

  /** Any run that uses the volume's chunk size, whatever else it does: the content
      of every inode that is still there is the flat effect of its writes. */
  lemma {:induction false} RunRefines(t: Tables, ops: seq<Op>, i: int, chunkSize: int)
    requires Tidy(t) && CarefulRun(t, ops) && WellChunked(t, chunkSize)
    requires forall op | op in ops :: UsesChunkSize(op, chunkSize)
    requires i in t.inode && i in Run(t, ops).inode
    ensures WellChunked(Run(t, ops), chunkSize)
    ensures Content(Run(t, ops), i, chunkSize) == FlatRun(t, ops, i, Content(t, i, chunkSize))
    decreases |ops|
  {
    if ops != [] {
      var t1 := Apply(t, ops[0]).tables;
      StepRefines(t, ops[0], chunkSize);
      CarefulApply(t, ops[0]);
      NoRevival(t, ops[0], i);
      StillThere(t1, ops[1..], i);
      RunRefines(t1, ops[1..], i, chunkSize);
    }
  }
}
