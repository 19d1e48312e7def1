/** What runJob stores of a command's output, and how a reader pages through it. */
module JobLogs {
  import opened Wrappers
  import ES = ExecStream
  import Jobs

  datatype Stream = Stdout | Stderr

  /** An event of the exec stream, its output already decoded from base64. */
  datatype Event<B> = Start(execId: string) | Output(stream: Stream, bytes: seq<B>) | Exit(code: int)

  /** One fs_job_log row; its timestamp is left out. */
  datatype Row<B> = Row(seqNo: nat, stream: Stream, data: seq<B>)

  /** The cap a runner uses unless it is given another. */
  const MAX_OUTPUT_BYTES := 50 * 1024 * 1024

  // --- What the command wrote ------------------------------------------------------

  /** Each byte with the stream it was written to. */
  function Tag<B>(stream: Stream, bytes: seq<B>): (r: seq<(Stream, B)>)
    ensures |r| == |bytes| && forall i | 0 <= i < |bytes| :: r[i] == (stream, bytes[i])
  {
    seq(|bytes|, i requires 0 <= i < |bytes| => (stream, bytes[i]))
  }

  function Written<B>(es: seq<Event<B>>): seq<(Stream, B)> {
    if es == [] then []
    else Written(es[..|es| - 1]) + (match es[|es| - 1]
                                    case Output(stream, bytes) => Tag(stream, bytes)
                                    case Start(_) => []
                                    case Exit(_) => [])
  }

  function ExitOf<B>(es: seq<Event<B>>): Option<int> {
    if es == [] then None
    else if es[|es| - 1].Exit? then Some(es[|es| - 1].code) else ExitOf(es[..|es| - 1])
  }

  function ExecIdOf<B>(es: seq<Event<B>>): Option<string> {
    if es == [] then None
    else if es[|es| - 1].Start? then Some(es[|es| - 1].execId) else ExecIdOf(es[..|es| - 1])
  }

  /** What the rows hold, end to end. */
  function Stored<B>(rows: seq<Row<B>>): seq<(Stream, B)> {
    if rows == [] then [] else Stored(rows[..|rows| - 1]) + Tag(rows[|rows| - 1].stream, rows[|rows| - 1].data)
  }

  function FirstOf<T>(s: seq<T>, n: nat): seq<T> {
    if n <= |s| then s[..n] else s
  }

  /** Rows are numbered from 0 without gaps, and none is empty. */
  ghost predicate Numbered<B>(rows: seq<Row<B>>) {
    forall i | 0 <= i < |rows| :: rows[i].seqNo == i && rows[i].data != []
  }

  /** The rows are the first `cap` bytes written, marked truncated exactly when more came. */
  ghost predicate Faithful<B>(rows: seq<Row<B>>, truncated: bool, es: seq<Event<B>>, cap: nat) {
    && Numbered(rows)
    && Stored(rows) == FirstOf(Written(es), cap)
    && (truncated <==> |Written(es)| > cap)
  }

  lemma StoredSnoc<B>(rows: seq<Row<B>>, row: Row<B>)
    ensures Stored(rows + [row]) == Stored(rows) + Tag(row.stream, row.data)
  {
    assert (rows + [row])[..|rows|] == rows;
  }

  lemma Snoc<B>(es: seq<Event<B>>, e: Event<B>)
    ensures e.Output? ==> Written(es + [e]) == Written(es) + Tag(e.stream, e.bytes)
    ensures !e.Output? ==> Written(es + [e]) == Written(es)
    ensures ExitOf(es + [e]) == if e.Exit? then Some(e.code) else ExitOf(es)
    ensures ExecIdOf(es + [e]) == if e.Start? then Some(e.execId) else ExecIdOf(es)
  {
    assert (es + [e])[..|es|] == es;
    ES.Unit(Written(es));
  }

  /** Taking the first `cap` of a text that grows: all of what was there, then as much of
      the new part as still fits. */
  lemma FirstOfMore<T>(old': seq<T>, more: seq<T>, cap: nat)
    ensures |old'| <= cap ==> FirstOf(old' + more, cap) == old' + FirstOf(more, cap - |old'|)
    ensures |old'| > cap ==> FirstOf(old' + more, cap) == FirstOf(old', cap)
  {
  }

  lemma TagFirst<B>(stream: Stream, bytes: seq<B>, n: nat)
    ensures FirstOf(Tag(stream, bytes), n) == Tag(stream, FirstOf(bytes, n))
  {
  }

  // --- The runner ----------------------------------------------------------------------

  /** What runJob hands to finalizeJob. */
  datatype Final = Final(status: Jobs.Status, exitCode: Option<int>, outputBytes: nat, truncated: bool)

  /** The variables of one run. */
  class LogWriter<B(0)> {
    const cap: nat
    var rows: seq<Row<B>>
    var nextSeq: nat
    var outputBytes: nat
    var truncated: bool
    var exitCode: Option<int>
    var execId: Option<string>

    /** The state after the events `es`. */
    ghost predicate After(es: seq<Event<B>>)
      reads this
    {
      && Faithful(rows, truncated, es, cap)
      && nextSeq == |rows| && outputBytes == |Stored(rows)|
      && exitCode == ExitOf(es) && execId == ExecIdOf(es)
    }

    constructor (cap: nat)
      ensures After([]) && this.cap == cap
    {
      this.cap := cap;
      rows, nextSeq, outputBytes, truncated, exitCode, execId := [], 0, 0, false, None, None;
    }

    method Append(stream: Stream, data: seq<B>)
      requires nextSeq == |rows| && outputBytes == |Stored(rows)| && Numbered(rows) && data != []
      modifies `rows, `nextSeq, `outputBytes
      ensures nextSeq == |rows| && outputBytes == |Stored(rows)| && Numbered(rows)
      ensures Stored(rows) == old(Stored(rows)) + Tag(stream, data)
    {
      StoredSnoc(rows, Row(nextSeq, stream, data));
      rows := rows + [Row(nextSeq, stream, data)];
      nextSeq, outputBytes := nextSeq + 1, outputBytes + |data|;
    }

    method Write(stream: Stream, bytes: seq<B>, ghost es: seq<Event<B>>)
      requires After(es)
      modifies `rows, `nextSeq, `outputBytes, `truncated
      ensures After(es + [Output(stream, bytes)])
    {
      ghost var written, more := Written(es), Tag(stream, bytes);
      Snoc(es, Output(stream, bytes));
      FirstOfMore(written, more, cap);
      if bytes == [] {
        ES.Unit(written);
        return;
      }
      if truncated { return; }
      var remaining := cap - outputBytes;
      TagFirst(stream, bytes, remaining);
      if |bytes| <= remaining {
        Append(stream, bytes);
      } else {
        if remaining > 0 {
          Append(stream, bytes[..remaining]);
        } else {
          assert FirstOf(more, 0) == [];
          ES.Unit(written);
        }
        truncated := true;
      }
    }

    method Handle(e: Event<B>, ghost es: seq<Event<B>>)
      requires After(es)
      modifies `rows, `nextSeq, `outputBytes, `truncated, `exitCode, `execId
      ensures After(es + [e])
    {
      Snoc(es, e);
      match e {
        case Start(id) => execId := Some(id);
        case Output(stream, bytes) => Write(stream, bytes, es);
        case Exit(code) => exitCode := Some(code);
      }
    }

    method HandleAll(batch: seq<Event<B>>, ghost es: seq<Event<B>>)
      requires After(es)
      modifies `rows, `nextSeq, `outputBytes, `truncated, `exitCode, `execId
      ensures After(es + batch)
    {
      ES.Unit(es);
      assert batch[..0] == [];
      for k := 0 to |batch|
        invariant After(es + batch[..k])
      {
        Handle(batch[k], es + batch[..k]);
        assert batch[..k + 1] == batch[..k] + [batch[k]];
        ES.Associates(es, batch[..k], [batch[k]]);
      }
      assert batch[..|batch|] == batch;
    }
  }

  /** How the stream of chunks ends: it closes, or reading it throws an error that does
      or does not say that the outcome is unknown. */
  datatype Ending = Closed | Broken(outcomeUnknown: bool)

  /** The events handled before the stream ends or the decoder fails, and whether it failed. */
  function Received<B>(chunks: seq<string>, buffer: string, ending: Ending,
                       parse: string -> Option<Event<B>>, utf8: string -> nat): (seq<Event<B>>, bool)
    decreases |chunks|
  {
    if chunks == [] then
      if ending.Broken? then ([], false)
      else match ES.ParseAll([buffer], parse, utf8)
           case None => ([], false)
           case Some(es) => (es, true)
    else
      var text := buffer + chunks[0];
      var es := ES.ParseAll(ES.Whole(text, "\n"), parse, utf8);
      if utf8(ES.Left(text, "\n")) > ES.MAX_LINE || es.None? then ([], false)
      else
        var (more, ok) := Received(chunks[1..], ES.Left(text, "\n"), ending, parse, utf8);
        (es.value + more, ok)
  }

  function Verdict(ok: bool, unknown: bool, canceled: bool, exitCode: Option<int>): Jobs.Status {
    if !ok then (if unknown then Jobs.Unknown else Jobs.Failed) else Jobs.Outcome(canceled, exitCode)
  }

  /** runJob once the command has been accepted. `canceled` is the row's flag when the
      stream has ended. */
  method RunJob<B(0)>(chunks: seq<string>, ending: Ending, canceled: bool, cap: nat,
                      parse: string -> Option<Event<B>>, utf8: string -> nat)
    returns (rows: seq<Row<B>>, final: Final)
    ensures var (es, ok) := Received(chunks, "", ending, parse, utf8);
            && Faithful(rows, final.truncated, es, cap) && final.outputBytes == |Stored(rows)|
            && final.exitCode == ExitOf(es)
            // Read to the end, the status tells the command's own outcome.
            && (ok ==> Jobs.Tells(final.status, canceled, ExitOf(es)))
            && (!ok ==> (final.status == Jobs.Unknown <==> ending.Broken? && ending.outcomeUnknown))
            && (!ok ==> (final.status == Jobs.Failed <==> !(ending.Broken? && ending.outcomeUnknown)))
  {
    var log := new LogWriter<B>(cap);
    var decoder := new ES.NdjsonDecoder(parse, utf8);
    ghost var done: seq<Event<B>> := [];
    ghost var all := Received(chunks, "", ending, parse, utf8);
    assert [] + all.0 == all.0;
    var k, ok := 0, true;
    while k < |chunks| && ok
      invariant 0 <= k <= |chunks| && log.After(done) && log.cap == cap && decoder.parse == parse
                && decoder.utf8 == utf8
      invariant ok ==> var rest := Received(chunks[k..], decoder.buffer, ending, parse, utf8);
                       done + rest.0 == all.0 && rest.1 == all.1
      invariant !ok ==> all == (done, false)
      decreases |chunks| - k, ok
    {
      ghost var buffer := decoder.buffer;
      assert chunks[k..][0] == chunks[k] && chunks[k..][1..] == chunks[k + 1..];
      var events := decoder.Push(chunks[k]);
      if events.None? {
        ES.Unit(done);
        ok := false;
      } else {
        ghost var rest := Received(chunks[k + 1..], decoder.buffer, ending, parse, utf8);
        ES.Associates(done, events.value, rest.0);
        log.HandleAll(events.value, done);
        done := done + events.value;
        k := k + 1;
      }
    }
    if ok {
      assert chunks[k..] == [];
      if ending.Broken? {
        ES.Unit(done);
        ok := false;
      } else {
        var last := decoder.Flush();
        if last.None? {
          ES.Unit(done);
          ok := false;
        } else {
          log.HandleAll(last.value, done);
          done := done + last.value;
        }
      }
    }
    rows := log.rows;
    final := Final(Verdict(ok, ending.Broken? && ending.outcomeUnknown, canceled, log.exitCode),
                   log.exitCode, log.outputBytes, log.truncated);
  }

  /** A stream that decodes cleanly is handled whole. */
  lemma {:induction false} DecodedIsReceived<B>(chunks: seq<string>, buffer: string,
                                                parse: string -> Option<Event<B>>, utf8: string -> nat)
    requires var r := ES.Decode(chunks, buffer, parse, utf8); r.Some? && r.value.1 == ""
    requires utf8("") == 0
    ensures Received(chunks, buffer, Closed, parse, utf8) == (ES.Decode(chunks, buffer, parse, utf8).value.0, true)
    decreases |chunks|
  {
    if chunks == [] {
      assert ES.Trim("") == "" && [""][1..] == [];
      assert ES.ParseAll([""][1..], parse, utf8) == Some([]);
    } else {
      DecodedIsReceived(chunks[1..], ES.Left(buffer + chunks[0], "\n"), parse, utf8);
    }
  }

  /** From the container's events to the stored rows, whatever the chunks on both legs:
      the first `cap` bytes the command wrote, each with its stream, in rows numbered
      from 0; truncated exactly when more was written; and the command's own verdict. */
  method RunRemote<B(0)>(xs: seq<ES.Sent>, wire: seq<string>, lines: seq<string>, canceled: bool, cap: nat,
                         parse: string -> Option<Event<B>>, utf8: string -> nat)
    returns (rows: seq<Row<B>>, final: Final)
    requires ES.Transportable(xs, parse, utf8) && ES.Flat(wire) == ES.Wire(xs)
    requires ES.Public(wire, utf8).Some? ==> ES.Flat(lines) == ES.Public(wire, utf8).value
    ensures var es := ES.EventsOf(xs, parse);
            && Faithful(rows, final.truncated, es, cap) && final.outputBytes == |Stored(rows)|
            && final.exitCode == ExitOf(es) && Jobs.Tells(final.status, canceled, ExitOf(es))
  {
    ES.EventsSurvive(xs, wire, lines, parse, utf8);
    DecodedIsReceived(lines, "", parse, utf8);
    rows, final := RunJob(lines, Closed, canceled, cap, parse, utf8);
  }

  // --- Reading the log ----------------------------------------------------------------------

  const DEFAULT_LOG_LIMIT := 500
  const MAX_LOG_LIMIT := 2000

  datatype LogError = JobNotFound | InvalidArgument

  datatype Page<B> = Page(entries: seq<Row<B>>, next: Option<int>)

  /** WHERE seq > ? ORDER BY seq: the rows are in seq order. */
  function Later<B>(rows: seq<Row<B>>, after: int): seq<Row<B>> {
    if rows == [] then []
    else (if rows[0].seqNo > after then [rows[0]] else []) + Later(rows[1..], after)
  }

  function ClampLimit(limit: Option<int>): (r: Result<nat, LogError>)
    ensures r.Ok? ==> 1 <= r.value <= MAX_LOG_LIMIT
    ensures r.Err? <==> limit.Some? && limit.value <= 0
  {
    match limit
    case None => Ok(DEFAULT_LOG_LIMIT)
    case Some(n) => if n <= 0 then Err(InvalidArgument) else if n < MAX_LOG_LIMIT then Ok(n) else Ok(MAX_LOG_LIMIT)
  }

  /** getJobLogs; `rows` is None when there is no such job. */
  function GetJobLogs<B>(rows: Option<seq<Row<B>>>, after: Option<int>, limit: Option<int>): Result<Page<B>, LogError> {
    var afterSeq := if after.None? then -1 else after.value;
    if rows.None? then Err(JobNotFound)
    else if afterSeq < -1 then Err(InvalidArgument)
    else match ClampLimit(limit)
         case Err(e) => Err(e)
         case Ok(size) => Ok(PageOf(Later(rows.value, afterSeq), size))
  }

  function PageOf<B>(later: seq<Row<B>>, size: nat): Page<B> {
    var entries := FirstOf(later, size);
    Page(entries, if |entries| == size && |entries| > 0 then Some(entries[|entries| - 1].seqNo) else None)
  }

  /** Which requests for a page are refused, and how long a page may be. */
  lemma LogArguments<B>(rows: Option<seq<Row<B>>>, after: Option<int>, limit: Option<int>)
    ensures var r := GetJobLogs(rows, after, limit);
            && (r == Err(JobNotFound) <==> rows == None)
            && (r == Err(InvalidArgument) <==>
                  rows.Some? && ((after.Some? && after.value <= -2) || (limit.Some? && limit.value <= 0)))
            && (r.Ok? ==> |r.value.entries| <= if limit.Some? then limit.value else 500)
            && (r.Ok? ==> |r.value.entries| <= 2000)
  {
  }

  lemma {:induction false} LaterIsRest<B>(rows: seq<Row<B>>, base: nat, n: nat)
    requires forall i | 0 <= i < |rows| :: rows[i].seqNo == base + i
    requires base <= n <= base + |rows|
    ensures Later(rows, n - 1) == rows[n - base..]
    decreases |rows|
  {
    if rows != [] {
      if n == base {
        LaterIsAll(rows, n - 1);
      } else {
        LaterIsRest(rows[1..], base + 1, n);
        assert [] + Later(rows[1..], n - 1) == Later(rows[1..], n - 1);
      }
    }
  }

  lemma {:induction false} LaterIsAll<B>(rows: seq<Row<B>>, after: int)
    requires forall i | 0 <= i < |rows| :: rows[i].seqNo > after
    ensures Later(rows, after) == rows
  {
    if rows != [] { LaterIsAll(rows[1..], after); }
  }

  /** Reading on from `next` until it is null, each time from the table as it then is. */
  function Follow<B>(tables: seq<seq<Row<B>>>, after: Option<int>, limit: Option<int>): (seq<Row<B>>, bool)
    decreases |tables|
  {
    if tables == [] then ([], false)
    else match GetJobLogs(Some(tables[0]), after, limit)
         case Err(_) => ([], false)
         case Ok(page) =>
           if page.next.None? then (page.entries, true)
           else
             var (more, ended) := Follow(tables[1..], page.next, limit);
             (page.entries + more, ended)
  }

  /** A running job only adds rows. */
  ghost predicate Growing<B>(tables: seq<seq<Row<B>>>) {
    && (forall i | 0 <= i < |tables| :: Numbered(tables[i]))
    && (forall i, j | 0 <= i < j < |tables| :: tables[i] <= tables[j])
  }

  /** `read` is the part of the log that starts at row `n`. */
  ghost predicate Reads<B>(rows: seq<Row<B>>, n: nat, read: seq<Row<B>>) {
    n + |read| <= |rows| && read == rows[n..n + |read|]
  }

  lemma PageIsNext<B>(rows: seq<Row<B>>, n: nat, after: Option<int>, limit: Option<int>)
    requires Numbered(rows) && n <= |rows| && ClampLimit(limit).Ok?
    requires after == Some(n - 1) || (after == None && n == 0)
    ensures var r := GetJobLogs(Some(rows), after, limit);
            && r.Ok? && Reads(rows, n, r.value.entries)
            && (r.value.next.None? ==> n + |r.value.entries| == |rows|)
            && (r.value.next.Some? ==> r.value.entries != [] && r.value.next == Some(n + |r.value.entries| - 1))
  {
    LaterIsRest(rows, 0, n);
    PageOfRest(rows, n, ClampLimit(limit).value);
  }

  lemma PageOfRest<B>(rows: seq<Row<B>>, n: nat, size: nat)
    requires Numbered(rows) && n <= |rows| && size >= 1
    ensures var page := PageOf(rows[n..], size);
            && Reads(rows, n, page.entries)
            && (page.next.None? ==> n + |page.entries| == |rows|)
            && (page.next.Some? ==> page.entries != [] && page.next == Some(n + |page.entries| - 1))
  {
    var end := if n + size <= |rows| then n + size else |rows|;
    assert FirstOf(rows[n..], size) == rows[n..end];
  }

  lemma ReadsMore<B>(rows: seq<Row<B>>, n: nat, read: seq<Row<B>>, more: seq<Row<B>>)
    requires Reads(rows, n, read) && Reads(rows, n + |read|, more)
    ensures Reads(rows, n, read + more)
  {
  }

  lemma ReadsLater<B>(rows: seq<Row<B>>, n: nat, read: seq<Row<B>>, grown: seq<Row<B>>)
    requires Reads(rows, n, read) && rows <= grown
    ensures Reads(grown, n, read)
  {
  }

  /** `read` ends where one of the tables did. */
  ghost predicate Complete<B>(tables: seq<seq<Row<B>>>, end: nat) {
    exists k :: 0 <= k < |tables| && end == |tables[k]|
  }

  /** A reader that follows `next` gets each row once and in order, whatever is added in
      between, and when it is told that there is no more it has all there was. */
  lemma {:induction false} FollowReadsAll<B>(tables: seq<seq<Row<B>>>, n: nat, after: Option<int>, limit: Option<int>)
    requires Growing(tables) && ClampLimit(limit).Ok? && tables != [] && n <= |tables[0]|
    requires after == Some(n - 1) || (after == None && n == 0)
    ensures var (read, ended) := Follow(tables, after, limit);
            Reads(tables[|tables| - 1], n, read) && (ended ==> Complete(tables, n + |read|))
    decreases |tables|
  {
    PageIsNext(tables[0], n, after, limit);
    var page := GetJobLogs(Some(tables[0]), after, limit).value;
    var last := tables[|tables| - 1];
    ReadsLater(tables[0], n, page.entries, last);
    if page.next.Some? {
      if |tables| == 1 {
        assert tables[1..] == [];
        ES.Unit(page.entries);
      } else {
        FollowReadsAll(tables[1..], n + |page.entries|, page.next, limit);
        var (more, ended) := Follow(tables[1..], page.next, limit);
        ReadsMore(last, n, page.entries, more);
        if ended { CompleteTail(tables, n + |page.entries| + |more|); }
      }
    }
  }

  lemma CompleteTail<B>(tables: seq<seq<Row<B>>>, end: nat)
    requires tables != [] && Complete(tables[1..], end)
    ensures Complete(tables, end)
  {
    var k :| 0 <= k < |tables[1..]| && end == |tables[1..][k]|;
    assert end == |tables[k + 1]|;
  }

  function Unchanging<B>(rows: seq<Row<B>>, polls: nat): (r: seq<seq<Row<B>>>)
    ensures |r| == polls && forall i | 0 <= i < polls :: r[i] == rows
  {
    seq(polls, _ => rows)
  }

  lemma {:induction false} FollowStops<B>(rows: seq<Row<B>>, polls: nat, n: nat, after: Option<int>, limit: Option<int>)
    requires Numbered(rows) && ClampLimit(limit).Ok? && n <= |rows| && polls > |rows| - n
    requires after == Some(n - 1) || (after == None && n == 0)
    ensures Follow(Unchanging(rows, polls), after, limit).1
    decreases polls
  {
    var tables := Unchanging(rows, polls);
    PageIsNext(tables[0], n, after, limit);
    var page := GetJobLogs(Some(tables[0]), after, limit).value;
    if page.next.Some? {
      assert tables[1..] == Unchanging(rows, polls - 1);
      FollowStops(rows, polls - 1, n + |page.entries|, page.next, limit);
    }
  }

  /** A finished job: if enough pages are asked for, all its rows are read. */
  lemma FollowEnds<B>(rows: seq<Row<B>>, polls: nat, limit: Option<int>)
    requires Numbered(rows) && ClampLimit(limit).Ok? && polls > |rows|
    ensures Follow(Unchanging(rows, polls), None, limit) == (rows, true)
  {
    var tables := Unchanging(rows, polls);
    FollowStops(rows, polls, 0, None, limit);
    FollowReadsAll(tables, 0, None, limit);
    var read := Follow(tables, None, limit).0;
    assert |read| == |rows| && tables[polls - 1] == rows && rows[0..|rows|] == rows;
  }
}
