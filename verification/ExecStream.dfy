/** The way of a command's events: framed as server-sent events with heartbeats,
    translated to newline-delimited JSON, decoded, and stored as bounded log rows. */
module ExecStream {
  import opened Wrappers

  // --- Text ------------------------------------------------------------------------

  /** indexOf */
  function Find(s: string, sep: string): (r: Option<nat>)
    requires sep != ""
    ensures r.Some? ==> r.value + |sep| <= |s| && s[r.value..r.value + |sep|] == sep
  {
    if |s| < |sep| then None
    else if sep <= s then Some(0)
    else match Find(s[1..], sep)
         case None => None
         case Some(i) =>
           assert s[1..][i..i + |sep|] == s[i + 1..i + 1 + |sep|];
           Some(i + 1)
  }

  /** The pieces that end with a separator. */
  function Whole(s: string, sep: string): seq<string>
    requires sep != ""
    decreases |s|
  {
    match Find(s, sep)
    case None => []
    case Some(i) => [s[..i]] + Whole(s[i + |sep|..], sep)
  }

  /** What follows the last separator. */
  function Left(s: string, sep: string): string
    requires sep != ""
    decreases |s|
  {
    match Find(s, sep)
    case None => s
    case Some(i) => Left(s[i + |sep|..], sep)
  }

  lemma PrefixOfLonger(sep: string, s: string, t: string)
    requires |sep| <= |s|
    ensures sep <= s + t <==> sep <= s
  {
    assert (s + t)[..|sep|] == s[..|sep|];
  }

  lemma {:induction false} FindAppend(s: string, t: string, sep: string)
    requires sep != "" && Find(s, sep).Some?
    ensures Find(s + t, sep) == Find(s, sep)
  {
    PrefixOfLonger(sep, s, t);
    if !(sep <= s) {
      assert (s + t)[1..] == s[1..] + t;
      FindAppend(s[1..], t, sep);
    }
  }

  lemma CutAt(s: string, head: string, rest: string, sep: string)
    requires sep != "" && s == head + sep + rest && Find(s, sep) == Some(|head|)
    ensures Whole(s, sep) == [head] + Whole(rest, sep) && Left(s, sep) == Left(rest, sep)
  {
    assert s[..|head|] == head && s[|head| + |sep|..] == rest;
  }

  lemma Associates<T>(a: seq<T>, b: seq<T>, c: seq<T>)
    ensures a + (b + c) == a + b + c
  {
  }

  /** Cutting what has come so far, then the rest with what comes next, is cutting it
      all: this is why the split into chunks does not matter. */
  lemma {:induction false} CutAppend(s: string, t: string, sep: string)
    requires sep != ""
    ensures Whole(s + t, sep) == Whole(s, sep) + Whole(Left(s, sep) + t, sep)
    ensures Left(s + t, sep) == Left(Left(s, sep) + t, sep)
    decreases |s|
  {
    if Find(s, sep).None? {
      NothingWhole(s, sep);
      assert [] + Whole(s + t, sep) == Whole(s + t, sep);
    } else {
      var i := Find(s, sep).value;
      CutAppend(s[i + |sep|..], t, sep);
      FindAppend(s, t, sep);
      CutBoth(s, t, i, sep);
      Associates([s[..i]], Whole(s[i + |sep|..], sep), Whole(Left(s[i + |sep|..], sep) + t, sep));
    }
  }

  lemma NothingWhole(s: string, sep: string)
    requires sep != "" && Find(s, sep).None?
    ensures Whole(s, sep) == [] && Left(s, sep) == s
  {
  }

  lemma CutBoth(s: string, t: string, i: nat, sep: string)
    requires sep != "" && Find(s, sep) == Some(i) && Find(s + t, sep) == Some(i)
    ensures var next := s[i + |sep|..];
            && Whole(s, sep) == [s[..i]] + Whole(next, sep) && Left(s, sep) == Left(next, sep)
            && Whole(s + t, sep) == [s[..i]] + Whole(next + t, sep) && Left(s + t, sep) == Left(next + t, sep)
  {
    Reassemble(s, t, i, sep);
    CutAt(s, s[..i], s[i + |sep|..], sep);
    CutAt(s + t, s[..i], s[i + |sep|..] + t, sep);
  }

  lemma Reassemble(s: string, t: string, i: nat, sep: string)
    requires i + |sep| <= |s| && s[i..i + |sep|] == sep
    ensures s == s[..i] + sep + s[i + |sep|..]
    ensures s + t == s[..i] + sep + (s[i + |sep|..] + t)
  {
  }

  /** No separator begins inside the frame, even with one right after it. */
  ghost predicate Clean(frame: string, sep: string) {
    sep != "" && forall i | 0 <= i < |frame| :: !(sep <= (frame + sep)[i..])
  }

  lemma {:induction false} FindFrame(frame: string, sep: string, rest: string)
    requires Clean(frame, sep)
    ensures Find(frame + sep + rest, sep) == Some(|frame|)
  {
    var s := frame + sep + rest;
    if frame == "" {
      assert s == sep + rest && sep <= s;
    } else {
      assert (frame + sep)[0..] == frame + sep;
      PrefixOfLonger(sep, frame + sep, rest);
      assert s[1..] == frame[1..] + sep + rest;
      CleanTail(frame, sep);
      FindFrame(frame[1..], sep, rest);
    }
  }

  function Join(frames: seq<string>, sep: string): string {
    if frames == [] then "" else frames[0] + sep + Join(frames[1..], sep)
  }

  /** Clean frames, each with its separator, are cut back into the frames. */
  lemma {:induction false} CutJoined(frames: seq<string>, sep: string)
    requires sep != "" && forall i | 0 <= i < |frames| :: Clean(frames[i], sep)
    ensures Whole(Join(frames, sep), sep) == frames && Left(Join(frames, sep), sep) == ""
  {
    if frames != [] {
      var rest := Join(frames[1..], sep);
      FindFrame(frames[0], sep, rest);
      CutAt(frames[0] + sep + rest, frames[0], rest, sep);
      CutJoined(frames[1..], sep);
    }
  }

  function Lines(s: string): seq<string> {
    Whole(s, "\n") + [Left(s, "\n")]
  }

  predicate IsSpace(c: char) { c == ' ' || c == '\t' || c == '\n' || c == '\r' }

  function Trim(s: string): string
    decreases |s|
  {
    if s != "" && IsSpace(s[0]) then Trim(s[1..])
    else if s != "" && IsSpace(s[|s| - 1]) then Trim(s[..|s| - 1])
    else s
  }

  /** replaceAll('\r\n', '\n') */
  function NoCrLf(s: string): string
    decreases |s|
  {
    if s == "" then ""
    else if "\r\n" <= s then "\n" + NoCrLf(s[2..])
    else [s[0]] + NoCrLf(s[1..])
  }

  lemma {:induction false} NoCrNoChange(s: string)
    requires '\r' !in s
    ensures NoCrLf(s) == s
  {
    if s != "" {
      assert s[0] != '\r';
      NoCrNoChange(s[1..]);
    }
  }

  /** Each CR LF becomes a line feed, wherever it stands, and nothing else changes. */
  lemma {:induction false} EachCrLfReplaced(x: string, y: string)
    ensures NoCrLf(x + "\r\n" + y) == NoCrLf(x) + "\n" + NoCrLf(y)
    decreases |x|
  {
    var s := x + "\r\n" + y;
    if x == "" {
      assert s[2..] == y && s[..2] == "\r\n";
    } else if "\r\n" <= x {
      assert s[2..] == x[2..] + "\r\n" + y && s[..2] == x[..2];
      EachCrLfReplaced(x[2..], y);
      assert "\n" + (NoCrLf(x[2..]) + "\n" + NoCrLf(y)) == "\n" + NoCrLf(x[2..]) + "\n" + NoCrLf(y);
    } else {
      assert s[1..] == x[1..] + "\r\n" + y && s[0] == x[0];
      assert s[1] == if |x| > 1 then x[1] else '\r';
      assert !("\r\n" <= s);
      EachCrLfReplaced(x[1..], y);
      assert [x[0]] + (NoCrLf(x[1..]) + "\n" + NoCrLf(y)) == [x[0]] + NoCrLf(x[1..]) + "\n" + NoCrLf(y);
    }
  }

  lemma {:induction false} NothingElseReplaced(s: string)
    requires forall i | 0 <= i < |s| - 1 :: !(s[i] == '\r' && s[i + 1] == '\n')
    ensures NoCrLf(s) == s
  {
    if s != "" {
      if |s| > 1 { assert !(s[0] == '\r' && s[1] == '\n'); }
      forall i | 0 <= i < |s[1..]| - 1 ensures !(s[1..][i] == '\r' && s[1..][i + 1] == '\n') {
        assert s[1..][i] == s[i + 1] && s[1..][i + 1] == s[i + 2];
      }
      NothingElseReplaced(s[1..]);
    }
  }

  predicate White(c: char) { c as int == 32 || c as int == 9 || c as int == 10 || c as int == 13 }

  /** What is left of a text without the blanks at both ends, and nothing more taken. */
  lemma {:induction false} Trimmed(s: string) returns (i: nat, j: nat)
    ensures i <= j <= |s| && Trim(s) == s[i..j]
    ensures forall k | 0 <= k < |s| && (k < i || k >= j) :: White(s[k])
    ensures i < j ==> !White(s[i]) && !White(s[j - 1])
    decreases |s|
  {
    if s != "" && IsSpace(s[0]) {
      var rest := s[1..];
      i, j := Trimmed(rest);
      assert rest[i..j] == s[i + 1..j + 1];
      assert forall k | 1 <= k < |s| :: s[k] == rest[k - 1];
      i, j := i + 1, j + 1;
    } else if s != "" && IsSpace(s[|s| - 1]) {
      var rest := s[..|s| - 1];
      i, j := Trimmed(rest);
      assert rest[i..j] == s[i..j];
      assert forall k | 0 <= k < |s| - 1 :: s[k] == rest[k];
    } else {
      i, j := 0, |s|;
    }
  }

  // --- From events to frames to lines -------------------------------------------------

  /** What the container writes: an event's JSON text, or a heartbeat. */
  datatype Sent = Event(json: string) | Heartbeat

  function FrameOf(x: Sent): string {
    match x
    case Event(json) => "data: " + json
    case Heartbeat => "event: heartbeat\ndata: {}"
  }

  function Frames(xs: seq<Sent>): seq<string> {
    if xs == [] then [] else [FrameOf(xs[0])] + Frames(xs[1..])
  }

  /** The SSE stream of the exec endpoint. */
  function Wire(xs: seq<Sent>): string { Join(Frames(xs), "\n\n") }

  /** JSON text has no raw line break (RFC 8259 section 7) and is not blank. */
  predicate JsonText(json: string) { '\n' !in json && '\r' !in json && Trim(json) != "" }

  predicate Proper(xs: seq<Sent>) { forall i | 0 <= i < |xs| :: xs[i].Event? ==> JsonText(xs[i].json) }

  function EventName(lines: seq<string>): Option<string> {
    if lines == [] then None
    else if "event:" <= lines[0] then Some(Trim(lines[0][6..]))
    else EventName(lines[1..])
  }

  function DataLine(line: string): string
    requires "data:" <= line
  {
    if " " <= line[5..] then line[6..] else line[5..]
  }

  function DataLines(lines: seq<string>): seq<string> {
    if lines == [] then []
    else (if "data:" <= lines[0] then [DataLine(lines[0])] else []) + DataLines(lines[1..])
  }

  function JoinLines(lines: seq<string>): string {
    if lines == [] then "" else if |lines| == 1 then lines[0] else lines[0] + "\n" + JoinLines(lines[1..])
  }

  /** The data of a frame: what its `data:` lines hold after the colon and one blank. */
  lemma DataLinesMean(x: string, line: string, lines: seq<string>)
    ensures DataLines([]) == []
    ensures DataLines(["data: " + x] + lines) == [x] + DataLines(lines)
    ensures x == "" || x[0] != ' ' ==> DataLines(["data:" + x] + lines) == [x] + DataLines(lines)
    ensures !("data:" <= line) ==> DataLines([line] + lines) == DataLines(lines)
  {
    var a, b, c := ["data: " + x] + lines, ["data:" + x] + lines, [line] + lines;
    assert a[1..] == b[1..] == c[1..] == lines;
    assert ("data: " + x)[5..] == " " + x && ("data: " + x)[6..] == x && ("data:" + x)[5..] == x;
    assert [] + DataLines(lines) == DataLines(lines);
  }

  /** Its name: what the first `event:` line holds, without blanks around it. */
  lemma EventNameMeans(x: string, line: string, lines: seq<string>)
    ensures EventName([]) == None
    ensures EventName(["event:" + x] + lines) == Some(Trim(x))
    ensures !("event:" <= line) ==> EventName([line] + lines) == EventName(lines)
  {
    assert ("event:" + x)[6..] == x && ([line] + lines)[1..] == lines;
  }

  /** The data lines are joined by line feeds, with none at the end. */
  lemma {:induction false} JoinedLines(lines: seq<string>)
    requires lines != []
    ensures JoinLines(lines) + "\n" == Join(lines, "\n")
  {
    if |lines| > 1 {
      JoinedLines(lines[1..]);
      assert lines[0] + "\n" + JoinLines(lines[1..]) + "\n" == lines[0] + "\n" + (JoinLines(lines[1..]) + "\n");
    } else {
      assert lines[1..] == [] && lines[0] + "\n" + "" == lines[0] + "\n";
    }
  }

  /** What one frame becomes in the public stream. */
  function Emission(frame: string): string {
    var lines := Lines(frame);
    var data := JoinLines(DataLines(lines));
    if EventName(lines) == Some("heartbeat") then "\n" else if data != "" then data + "\n" else ""
  }

  function EmitAll(frames: seq<string>): string {
    if frames == [] then "" else Emission(frames[0]) + EmitAll(frames[1..])
  }

  function PublicLine(x: Sent): string {
    match x
    case Event(json) => json
    case Heartbeat => ""
  }

  function PublicLines(xs: seq<Sent>): seq<string> {
    if xs == [] then [] else [PublicLine(xs[0])] + PublicLines(xs[1..])
  }

  /** The public NDJSON stream: a line for each event, an empty one for a heartbeat. */
  function Ndjson(xs: seq<Sent>): string { Join(PublicLines(xs), "\n") }

  lemma {:induction false} NoneInside(s: string, sep: string)
    requires |sep| > 0 && sep[0] !in s
    ensures Find(s, sep) == None
  {
    if |s| >= |sep| {
      assert s[0] != sep[0];
      NoneInside(s[1..], sep);
    }
  }

  lemma EventFrame(json: string)
    requires JsonText(json)
    ensures Clean("data: " + json, "\n\n") && Emission("data: " + json) == json + "\n"
  {
    var frame := "data: " + json;
    assert '\n' !in frame;
    NoneInside(frame, "\n");
    NothingWhole(frame, "\n");
    assert Lines(frame) == [frame];
    DataFrame(frame, json);
    forall i | 0 <= i < |frame| ensures !("\n\n" <= (frame + "\n\n")[i..]) {
      assert (frame + "\n\n")[i..][0] == frame[i];
    }
  }

  lemma DataFrame(frame: string, json: string)
    requires frame == "data: " + json && json != ""
    ensures EventName([frame]) == None && DataLines([frame]) == [json] && JoinLines([json]) == json
  {
    var none: seq<string> := [];
    assert [frame][1..] == none;
    assert frame[0] == 'd' && !("event:" <= frame);
    assert frame[..5] == "data:" && "data:" <= frame;
    assert frame[5..] == " " + json && frame[6..] == json;
    assert DataLine(frame) == json;
  }

  /** The heartbeat has two lines, the first of which names it. */
  lemma HeartbeatLines(frame: string, head: string, rest: string)
    requires frame == head + "\n" + rest && head == "event: heartbeat" && rest == "data: {}"
    ensures Lines(frame) == [head, rest]
  {
    forall i | 0 <= i < |head| ensures !("\n" <= (head + "\n")[i..]) { assert (head + "\n")[i..][0] == head[i]; }
    FindFrame(head, "\n", rest);
    CutAt(frame, head, rest, "\n");
    NoneInside(rest, "\n");
    NothingWhole(rest, "\n");
  }

  lemma HeartbeatFrame(frame: string)
    requires frame == "event: heartbeat\ndata: {}"
    ensures Clean(frame, "\n\n") && Emission(frame) == "\n"
  {
    var head, rest := "event: heartbeat", "data: {}";
    assert frame == head + "\n" + rest;
    HeartbeatLines(frame, head, rest);
    HeartbeatNamed(head, rest);
    HeartbeatClean(frame);
  }

  lemma HeartbeatNamed(head: string, rest: string)
    requires head == "event: heartbeat"
    ensures EventName([head, rest]) == Some("heartbeat")
  {
    assert head[..6] == "event:" && "event:" <= head && head[6..] == " heartbeat";
    TrimHeartbeat(head[6..]);
  }

  lemma HeartbeatClean(frame: string)
    requires |frame| == 25 && frame[16] == '\n' && forall i | 0 <= i < 25 && i != 16 :: frame[i] != '\n'
    ensures Clean(frame, "\n\n")
  {
    forall i | 0 <= i < |frame| ensures !("\n\n" <= (frame + "\n\n")[i..]) {
      var tail := (frame + "\n\n")[i..];
      assert tail[0] == frame[i] && (i < 24 ==> tail[1] == frame[i + 1]);
    }
  }

  lemma TrimHeartbeat(s: string)
    requires s == " heartbeat"
    ensures Trim(s) == "heartbeat"
  {
    assert s[1..] == "heartbeat";
  }

  lemma {:induction false} FramesClean(xs: seq<Sent>)
    requires Proper(xs)
    ensures |Frames(xs)| == |xs|
    ensures forall i | 0 <= i < |xs| :: Frames(xs)[i] == FrameOf(xs[i]) && Clean(Frames(xs)[i], "\n\n")
  {
    if xs != [] {
      FramesClean(xs[1..]);
      match xs[0]
      case Event(json) => EventFrame(json);
      case Heartbeat => HeartbeatFrame(FrameOf(xs[0]));
    }
  }

  /** Each frame is translated to its own line. */
  lemma {:induction false} EmitFrames(xs: seq<Sent>)
    requires Proper(xs)
    ensures EmitAll(Frames(xs)) == Ndjson(xs)
  {
    if xs != [] {
      EmitFrames(xs[1..]);
      match xs[0]
      case Event(json) => EventFrame(json);
      case Heartbeat => HeartbeatFrame(FrameOf(xs[0]));
    }
  }

  // --- Any chunking --------------------------------------------------------------------

  function Flat(chunks: seq<string>): string {
    if chunks == [] then "" else chunks[0] + Flat(chunks[1..])
  }

  /** The encoded length of a text grows with it. */
  ghost predicate Measures(utf8: string -> nat) {
    utf8("") == 0 && forall x, y :: utf8(x) <= utf8(x + y)
  }

  /** Of a joined stream, what is left over at any point is part of one frame. */
  lemma {:induction false} LeftIsPartial(p: string, frames: seq<string>, sep: string)
    requires sep != "" && p <= Join(frames, sep) && forall i | 0 <= i < |frames| :: Clean(frames[i], sep)
    ensures Left(p, sep) == "" || exists i :: 0 <= i < |frames| && Left(p, sep) <= frames[i] + sep
    decreases |frames|
  {
    if frames != [] {
      var first, rest := frames[0] + sep, Join(frames[1..], sep);
      if |p| < |first| {
        assert p <= first by { assert Join(frames, sep)[..|p|] == first[..|p|]; }
        PartialFrame(p, frames[0], sep);
        NothingWhole(p, sep);
      } else {
        var q := p[|first|..];
        assert p == frames[0] + sep + q by { assert Join(frames, sep)[..|first|] == first; }
        assert q <= rest by { assert Join(frames, sep)[..|p|][|first|..] == rest[..|q|]; }
        FindFrame(frames[0], sep, q);
        CutAt(p, frames[0], q, sep);
        LeftIsPartial(q, frames[1..], sep);
        if Left(q, sep) != "" {
          var i :| 0 <= i < |frames[1..]| && Left(q, sep) <= frames[1..][i] + sep;
          assert frames[i + 1] == frames[1..][i];
        }
      }
    }
  }

  /** A frame cut short holds no separator. */
  lemma {:induction false} PartialFrame(p: string, frame: string, sep: string)
    requires Clean(frame, sep) && p <= frame + sep && |p| < |frame| + |sep|
    ensures Find(p, sep) == None
  {
    if |p| >= |sep| {
      assert (frame + sep)[0..] == frame + sep;
      assert p[..|sep|] == (frame + sep)[..|sep|];
      assert p[1..] <= frame[1..] + sep by { assert (frame + sep)[1..] == frame[1..] + sep; }
      CleanTail(frame, sep);
      PartialFrame(p[1..], frame[1..], sep);
    }
  }

  lemma CleanTail(frame: string, sep: string)
    requires Clean(frame, sep) && frame != ""
    ensures Clean(frame[1..], sep)
  {
    forall i | 0 <= i < |frame[1..]| ensures !(sep <= (frame[1..] + sep)[i..]) {
      assert (frame[1..] + sep)[i..] == (frame + sep)[i + 1..];
    }
  }

  // --- The two stages, chunk by chunk --------------------------------------------------

  const MAX_SSE_BUFFER := 1024 * 1024
  const MAX_LINE := 4 * 1024 * 1024

  /** `es` before what the rest of the chunks give. */
  function After<E>(es: seq<E>, r: Option<(seq<E>, string)>): Option<(seq<E>, string)> {
    match r
    case None => None
    case Some((more, left)) => Some((es + more, left))
  }

  lemma AfterBoth<E>(a: seq<E>, b: seq<E>, r: Option<(seq<E>, string)>)
    ensures After(a, After(b, r)) == After(a + b, r)
  {
    if r.Some? { Associates(a, b, r.value.0); }
  }

  /** sseToNdjson over a list of chunks: the public text and what is still buffered, or
      None when a frame exceeds the limit. */
  function Translate(chunks: seq<string>, buffer: string, utf8: string -> nat): Option<(string, string)>
    decreases |chunks|
  {
    if chunks == [] then Some(("", buffer))
    else
      var text := NoCrLf(buffer + chunks[0]);
      var rest := Left(text, "\n\n");
      if utf8(rest) > MAX_SSE_BUFFER then None
      else After(EmitAll(Whole(text, "\n\n")), Translate(chunks[1..], rest, utf8))
  }

  /** The events of complete lines, blank ones passed over; None when one is too long
      or does not parse. */
  function ParseAll<E>(lines: seq<string>, parse: string -> Option<E>, utf8: string -> nat): Option<seq<E>> {
    if lines == [] then Some([])
    else if utf8(lines[0]) > MAX_LINE then None
    else
      match ParseAll(lines[1..], parse, utf8)
      case None => None
      case Some(more) =>
        if Trim(lines[0]) == "" then Some(more)
        else match parse(lines[0])
             case None => None
             case Some(e) => Some([e] + more)
  }

  /** BoundedNdjsonDecoder over a list of chunks. */
  function Decode<E>(chunks: seq<string>, buffer: string, parse: string -> Option<E>, utf8: string -> nat)
    : Option<(seq<E>, string)>
    decreases |chunks|
  {
    if chunks == [] then Some(([], buffer))
    else
      var text := buffer + chunks[0];
      var rest := Left(text, "\n");
      if utf8(rest) > MAX_LINE then None
      else
        match ParseAll(Whole(text, "\n"), parse, utf8)
        case None => None
        case Some(es) => After(es, Decode(chunks[1..], rest, parse, utf8))
  }

  lemma {:induction false} EmitAppend(xs: seq<string>, ys: seq<string>)
    ensures EmitAll(xs + ys) == EmitAll(xs) + EmitAll(ys)
  {
    if xs == [] {
      assert xs + ys == ys;
    } else {
      assert (xs + ys)[0] == xs[0] && (xs + ys)[1..] == xs[1..] + ys;
      EmitAppend(xs[1..], ys);
      Associates(Emission(xs[0]), EmitAll(xs[1..]), EmitAll(ys));
    }
  }

  function Both<E>(a: Option<seq<E>>, b: Option<seq<E>>): Option<seq<E>> {
    if a.Some? && b.Some? then Some(a.value + b.value) else None
  }

  lemma {:induction false} ParseAppend<E>(xs: seq<string>, ys: seq<string>, parse: string -> Option<E>,
                                          utf8: string -> nat)
    ensures ParseAll(xs + ys, parse, utf8) == Both(ParseAll(xs, parse, utf8), ParseAll(ys, parse, utf8))
  {
    if xs == [] {
      assert xs + ys == ys;
      if ParseAll(ys, parse, utf8).Some? {
        assert [] + ParseAll(ys, parse, utf8).value == ParseAll(ys, parse, utf8).value;
      }
    } else {
      assert (xs + ys)[0] == xs[0] && (xs + ys)[1..] == xs[1..] + ys;
      ParseAppend(xs[1..], ys, parse, utf8);
      if Trim(xs[0]) != "" && parse(xs[0]).Some? && ParseAll(xs[1..] + ys, parse, utf8).Some? {
        Associates([parse(xs[0]).value], ParseAll(xs[1..], parse, utf8).value, ParseAll(ys, parse, utf8).value);
      }
    }
  }

  /** One line more: if it is refused, so is the whole. */
  lemma NextLine<E>(cut: seq<string>, line: string, more: seq<string>, parse: string -> Option<E>, utf8: string -> nat)
    ensures cut + ([line] + more) == (cut + [line]) + more
    ensures ParseAll(cut + [line], parse, utf8) == Both(ParseAll(cut, parse, utf8), ParseAll([line], parse, utf8))
    ensures ParseAll([line], parse, utf8).None? ==> ParseAll(cut + ([line] + more), parse, utf8).None?
  {
    Associates(cut, [line], more);
    ParseAppend(cut, [line], parse, utf8);
    ParseAppend(cut + [line], more, parse, utf8);
  }

  /** What is left over after any part of the stream is within a limit. */
  ghost predicate LeftFits(text: string, sep: string, utf8: string -> nat, limit: nat) {
    sep != "" && forall p | p <= text :: utf8(Left(p, sep)) <= limit
  }

  lemma FramesLeftFit(frames: seq<string>, sep: string, utf8: string -> nat, limit: nat)
    requires sep != "" && Measures(utf8)
    requires forall i | 0 <= i < |frames| :: Clean(frames[i], sep) && utf8(frames[i] + sep) <= limit
    ensures LeftFits(Join(frames, sep), sep, utf8, limit)
  {
    forall p | p <= Join(frames, sep) ensures utf8(Left(p, sep)) <= limit {
      LeftIsPartial(p, frames, sep);
      if Left(p, sep) != "" {
        var i :| 0 <= i < |frames| && Left(p, sep) <= frames[i] + sep;
        var f, l := frames[i] + sep, Left(p, sep);
        assert f == l + f[|l|..];
      }
    }
  }

  /** `done` has come before; the machine is left with its unfinished part. */
  lemma {:induction false} TranslateAny(done: string, chunks: seq<string>, utf8: string -> nat)
    requires '\r' !in done + Flat(chunks) && LeftFits(done + Flat(chunks), "\n\n", utf8, MAX_SSE_BUFFER)
    ensures After(EmitAll(Whole(done, "\n\n")), Translate(chunks, Left(done, "\n\n"), utf8))
         == Some((EmitAll(Whole(done + Flat(chunks), "\n\n")), Left(done + Flat(chunks), "\n\n")))
    decreases |chunks|
  {
    if chunks == [] {
      assert done + Flat(chunks) == done;
      Unit(EmitAll(Whole(done, "\n\n")));
    } else {
      var now := done + chunks[0];
      assert done + Flat(chunks) == now + Flat(chunks[1..]);
      assert now <= done + Flat(chunks);
      TranslateAny(now, chunks[1..], utf8);
      TranslateMore(done, chunks, utf8);
    }
  }

  /** One chunk more: what it completes moves from the translator's output to what is done. */
  lemma TranslateMore(done: string, chunks: seq<string>, utf8: string -> nat)
    requires chunks != [] && '\r' !in done + chunks[0]
    requires utf8(Left(done + chunks[0], "\n\n")) <= MAX_SSE_BUFFER
    ensures After(EmitAll(Whole(done, "\n\n")), Translate(chunks, Left(done, "\n\n"), utf8))
         == After(EmitAll(Whole(done + chunks[0], "\n\n")), Translate(chunks[1..], Left(done + chunks[0], "\n\n"), utf8))
  {
    var rest := Left(done, "\n\n");
    CutAppend(done, chunks[0], "\n\n");
    LeftPart(done, "\n\n");
    NoCrNoChange(rest + chunks[0]);
    EmitAppend(Whole(done, "\n\n"), Whole(rest + chunks[0], "\n\n"));
    AfterBoth(EmitAll(Whole(done, "\n\n")), EmitAll(Whole(rest + chunks[0], "\n\n")),
              Translate(chunks[1..], Left(done + chunks[0], "\n\n"), utf8));
  }

  /** What is left over is the end of the text. */
  lemma {:induction false} LeftPart(s: string, sep: string)
    requires sep != ""
    ensures |Left(s, sep)| <= |s| && s[|s| - |Left(s, sep)|..] == Left(s, sep)
    ensures forall c | c in Left(s, sep) :: c in s
    decreases |s|
  {
    if Find(s, sep).Some? {
      var next := s[Find(s, sep).value + |sep|..];
      LeftPart(next, sep);
    }
  }

  lemma {:induction false} DecodeAny<E>(done: string, chunks: seq<string>, parse: string -> Option<E>,
                                        utf8: string -> nat)
    requires LeftFits(done + Flat(chunks), "\n", utf8, MAX_LINE)
    requires ParseAll(Whole(done + Flat(chunks), "\n"), parse, utf8).Some?
    ensures ParseAll(Whole(done, "\n"), parse, utf8).Some?
    ensures After(ParseAll(Whole(done, "\n"), parse, utf8).value, Decode(chunks, Left(done, "\n"), parse, utf8))
         == Some((ParseAll(Whole(done + Flat(chunks), "\n"), parse, utf8).value, Left(done + Flat(chunks), "\n")))
    decreases |chunks|
  {
    if chunks == [] {
      assert done + Flat(chunks) == done;
      Unit(ParseAll(Whole(done, "\n"), parse, utf8).value);
    } else {
      var now := done + chunks[0];
      assert done + Flat(chunks) == now + Flat(chunks[1..]);
      assert now <= done + Flat(chunks);
      DecodeAny(now, chunks[1..], parse, utf8);
      DecodeOne(done, chunks, parse, utf8);
    }
  }

  lemma Unit<T>(s: seq<T>)
    ensures s + [] == s
  {
  }

  /** One chunk more: what it completes moves from the decoder's output to what is done. */
  lemma DecodeOne<E>(done: string, chunks: seq<string>, parse: string -> Option<E>, utf8: string -> nat)
    requires chunks != [] && ParseAll(Whole(done + chunks[0], "\n"), parse, utf8).Some?
    requires utf8(Left(done + chunks[0], "\n")) <= MAX_LINE
    ensures ParseAll(Whole(done, "\n"), parse, utf8).Some?
    ensures After(ParseAll(Whole(done, "\n"), parse, utf8).value, Decode(chunks, Left(done, "\n"), parse, utf8))
         == After(ParseAll(Whole(done + chunks[0], "\n"), parse, utf8).value,
                  Decode(chunks[1..], Left(done + chunks[0], "\n"), parse, utf8))
  {
    ParseMore(done, chunks[0], parse, utf8);
    AfterBoth(ParseAll(Whole(done, "\n"), parse, utf8).value,
              ParseAll(Whole(Left(done, "\n") + chunks[0], "\n"), parse, utf8).value,
              Decode(chunks[1..], Left(done + chunks[0], "\n"), parse, utf8));
  }

  /** The lines a chunk completes add their events to those before. */
  lemma ParseMore<E>(done: string, chunk: string, parse: string -> Option<E>, utf8: string -> nat)
    requires ParseAll(Whole(done + chunk, "\n"), parse, utf8).Some?
    ensures var text := Left(done, "\n") + chunk;
            && ParseAll(Whole(done, "\n"), parse, utf8).Some? && ParseAll(Whole(text, "\n"), parse, utf8).Some?
            && ParseAll(Whole(done + chunk, "\n"), parse, utf8).value
               == ParseAll(Whole(done, "\n"), parse, utf8).value + ParseAll(Whole(text, "\n"), parse, utf8).value
            && Left(text, "\n") == Left(done + chunk, "\n")
  {
    CutAppend(done, chunk, "\n");
    ParseAppend(Whole(done, "\n"), Whole(Left(done, "\n") + chunk, "\n"), parse, utf8);
  }

  // --- End to end --------------------------------------------------------------------------

  /** Every frame and line is within its bound, and every event's text parses. */
  ghost predicate Transportable<E>(xs: seq<Sent>, parse: string -> Option<E>, utf8: string -> nat) {
    && Measures(utf8) && Proper(xs)
    && (forall i | 0 <= i < |xs| :: utf8(FrameOf(xs[i]) + "\n\n") <= MAX_SSE_BUFFER)
    && (forall i | 0 <= i < |xs| && xs[i].Event? :: utf8(xs[i].json + "\n") <= MAX_LINE && parse(xs[i].json).Some?)
    && utf8("\n") <= MAX_LINE
  }

  function EventsOf<E>(xs: seq<Sent>, parse: string -> Option<E>): seq<E>
    requires forall i | 0 <= i < |xs| && xs[i].Event? :: parse(xs[i].json).Some?
  {
    if xs == [] then []
    else (if xs[0].Event? then [parse(xs[0].json).value] else []) + EventsOf(xs[1..], parse)
  }

  lemma {:induction false} FramesNoCr(xs: seq<Sent>)
    requires Proper(xs)
    ensures '\r' !in Wire(xs)
  {
    if xs != [] {
      FramesNoCr(xs[1..]);
      assert '\r' !in FrameOf(xs[0]);
    }
  }

  /** First stage: any split of the SSE stream gives the public lines, with nothing
      left in the buffer. */
  lemma SseToLines<E>(xs: seq<Sent>, chunks: seq<string>, parse: string -> Option<E>, utf8: string -> nat)
    requires Transportable(xs, parse, utf8) && Flat(chunks) == Wire(xs)
    ensures Translate(chunks, "", utf8) == Some((Ndjson(xs), ""))
  {
    FramesClean(xs);
    CutJoined(Frames(xs), "\n\n");
    FramesLeftFit(Frames(xs), "\n\n", utf8, MAX_SSE_BUFFER);
    FramesNoCr(xs);
    assert "" + Flat(chunks) == Wire(xs);
    assert Whole("", "\n\n") == [] && Left("", "\n\n") == "";
    TranslateAny("", chunks, utf8);
    EmitFrames(xs);
    var out := Translate(chunks, "", utf8).value.0;
    assert "" + out == out;
  }

  lemma {:induction false} LinesClean(xs: seq<Sent>)
    requires Proper(xs)
    ensures |PublicLines(xs)| == |xs|
    ensures forall i | 0 <= i < |xs| :: PublicLines(xs)[i] == PublicLine(xs[i]) && Clean(PublicLines(xs)[i], "\n")
  {
    if xs != [] {
      LinesClean(xs[1..]);
      var line := PublicLine(xs[0]);
      forall i | 0 <= i < |line| ensures !("\n" <= (line + "\n")[i..]) {
        assert (line + "\n")[i..][0] == line[i];
      }
    }
  }

  lemma {:induction false} LinesParse<E>(xs: seq<Sent>, parse: string -> Option<E>, utf8: string -> nat)
    requires Transportable(xs, parse, utf8)
    ensures ParseAll(PublicLines(xs), parse, utf8) == Some(EventsOf(xs, parse))
  {
    if xs != [] {
      LinesParse(xs[1..], parse, utf8);
      assert PublicLines(xs)[1..] == PublicLines(xs[1..]);
      match xs[0]
      case Event(json) => assert utf8(json) <= utf8(json + "\n");
      case Heartbeat =>
        assert Trim("") == "";
        assert [] + EventsOf(xs[1..], parse) == EventsOf(xs[1..], parse);
    }
  }

  /** Second stage: any split of the public lines gives the events. */
  lemma LinesToEvents<E>(xs: seq<Sent>, chunks: seq<string>, parse: string -> Option<E>, utf8: string -> nat)
    requires Transportable(xs, parse, utf8) && Flat(chunks) == Ndjson(xs)
    ensures Decode(chunks, "", parse, utf8) == Some((EventsOf(xs, parse), ""))
  {
    LinesClean(xs);
    CutJoined(PublicLines(xs), "\n");
    forall i | 0 <= i < |xs| ensures utf8(PublicLines(xs)[i] + "\n") <= MAX_LINE {
      if xs[i].Heartbeat? { assert "" + "\n" == "\n"; }
    }
    FramesLeftFit(PublicLines(xs), "\n", utf8, MAX_LINE);
    LinesParse(xs, parse, utf8);
    assert "" + Flat(chunks) == Ndjson(xs);
    assert Whole("", "\n") == [] && Left("", "\n") == "";
    DecodeAny("", chunks, parse, utf8);
    var es := Decode(chunks, "", parse, utf8).value.0;
    assert [] + es == es;
  }

  // --- The two transforms -----------------------------------------------------------------

  /** The end of the SSE stream: the rest is drained, and nothing but blanks may be left. */
  function Finish(buffer: string, utf8: string -> nat): Option<string> {
    var text := NoCrLf(buffer);
    if utf8(Left(text, "\n\n")) > MAX_SSE_BUFFER || Trim(Left(text, "\n\n")) != "" then None
    else Some(EmitAll(Whole(text, "\n\n")))
  }

  /** The public text of a whole stream; None when the translation fails. */
  function Public(chunks: seq<string>, utf8: string -> nat): Option<string> {
    match Translate(chunks, "", utf8)
    case None => None
    case Some((out, left)) => match Finish(left, utf8)
                              case None => None
                              case Some(more) => Some(out + more)
  }

  class SseTranslator {
    var buffer: string

    constructor ()
      ensures buffer == ""
    {
      buffer := "";
    }

    method Drain(utf8: string -> nat) returns (ok: bool, out: string)
      modifies this
      ensures buffer == Left(NoCrLf(old(buffer)), "\n\n")
      ensures out == EmitAll(Whole(NoCrLf(old(buffer)), "\n\n"))
      ensures ok <==> utf8(buffer) <= MAX_SSE_BUFFER
    {
      buffer := NoCrLf(buffer);
      ghost var text := buffer;
      ghost var cut: seq<string> := [];
      out := "";
      var boundary := Find(buffer, "\n\n");
      assert [] + Whole(buffer, "\n\n") == Whole(buffer, "\n\n");
      while boundary.Some?
        invariant boundary == Find(buffer, "\n\n")
        invariant Whole(text, "\n\n") == cut + Whole(buffer, "\n\n") && Left(text, "\n\n") == Left(buffer, "\n\n")
        invariant out == EmitAll(cut)
        decreases |buffer|
      {
        var frame, after := buffer[..boundary.value], buffer[boundary.value + 2..];
        assert Whole(buffer, "\n\n") == [frame] + Whole(after, "\n\n");
        EmitAppend(cut, [frame]);
        assert EmitAll([frame]) == Emission(frame) + "" == Emission(frame);
        Associates(cut, [frame], Whole(after, "\n\n"));
        buffer := after;
        out := out + Emission(frame);
        cut := cut + [frame];
        boundary := Find(buffer, "\n\n");
      }
      NothingWhole(buffer, "\n\n");
      assert cut + [] == cut;
      ok := utf8(buffer) <= MAX_SSE_BUFFER;
    }

    method Transform(chunk: string, utf8: string -> nat) returns (ok: bool, out: string)
      modifies this
      ensures buffer == Left(NoCrLf(old(buffer) + chunk), "\n\n")
      ensures out == EmitAll(Whole(NoCrLf(old(buffer) + chunk), "\n\n"))
      ensures ok <==> utf8(buffer) <= MAX_SSE_BUFFER
    {
      buffer := buffer + chunk;
      ok, out := Drain(utf8);
    }

    method Flush(utf8: string -> nat) returns (r: Option<string>)
      modifies this
      ensures r == Finish(old(buffer), utf8)
    {
      var ok, out := Drain(utf8);
      r := if ok && Trim(buffer) == "" then Some(out) else None;
    }
  }

  lemma {:induction false} TranslateAppend(chunks: seq<string>, chunk: string, buffer: string, utf8: string -> nat)
    ensures Translate(chunks + [chunk], buffer, utf8) == TranslateOne(Translate(chunks, buffer, utf8), chunk, utf8)
  {
    if chunks == [] {
      assert chunks + [chunk] == [chunk] && [chunk][1..] == [];
      var text := NoCrLf(buffer + chunk);
      assert EmitAll(Whole(text, "\n\n")) + "" == EmitAll(Whole(text, "\n\n")) == "" + EmitAll(Whole(text, "\n\n"));
    } else {
      assert (chunks + [chunk])[1..] == chunks[1..] + [chunk];
      var text := NoCrLf(buffer + chunks[0]);
      var rest := Left(text, "\n\n");
      TranslateAppend(chunks[1..], chunk, rest, utf8);
      var inner := Translate(chunks[1..], rest, utf8);
      if inner.Some? {
        var more := NoCrLf(inner.value.1 + chunk);
        Associates(EmitAll(Whole(text, "\n\n")), inner.value.0, EmitAll(Whole(more, "\n\n")));
      }
    }
  }

  /** One more chunk after a run of them. */
  function TranslateOne(r: Option<(string, string)>, chunk: string, utf8: string -> nat): Option<(string, string)> {
    match r
    case None => None
    case Some((out, buffer)) =>
      var text := NoCrLf(buffer + chunk);
      if utf8(Left(text, "\n\n")) > MAX_SSE_BUFFER then None
      else Some((out + EmitAll(Whole(text, "\n\n")), Left(text, "\n\n")))
  }

  lemma TranslateNext(chunks: seq<string>, k: nat, utf8: string -> nat)
    requires k < |chunks|
    ensures Translate(chunks[..k + 1], "", utf8) == TranslateOne(Translate(chunks[..k], "", utf8), chunks[k], utf8)
  {
    assert chunks[..k + 1] == chunks[..k] + [chunks[k]];
    TranslateAppend(chunks[..k], chunks[k], "", utf8);
  }

  lemma {:induction false} TranslateFails(chunks: seq<string>, k: nat, utf8: string -> nat)
    requires k <= |chunks| && Translate(chunks[..k], "", utf8) == None
    ensures Translate(chunks, "", utf8) == None
    decreases |chunks| - k
  {
    if k == |chunks| {
      assert chunks[..k] == chunks;
    } else {
      TranslateNext(chunks, k, utf8);
      TranslateFails(chunks, k + 1, utf8);
    }
  }

  /** A stream piped through the transform. */
  method SseToNdjson(chunks: seq<string>, utf8: string -> nat) returns (r: Option<string>)
    ensures r == Public(chunks, utf8)
  {
    var transform := new SseTranslator();
    var out := "";
    assert chunks[..0] == [];
    for k := 0 to |chunks|
      invariant Translate(chunks[..k], "", utf8) == Some((out, transform.buffer))
    {
      var ok, text := transform.Transform(chunks[k], utf8);
      TranslateNext(chunks, k, utf8);
      if !ok {
        TranslateFails(chunks, k + 1, utf8);
        return None;
      }
      out := out + text;
    }
    assert chunks[..|chunks|] == chunks;
    var last := transform.Flush(utf8);
    r := if last.Some? then Some(out + last.value) else None;
  }

  class NdjsonDecoder<E(0)> {
    const parse: string -> Option<E>
    const utf8: string -> nat
    var buffer: string

    constructor (parse: string -> Option<E>, utf8: string -> nat)
      ensures this.parse == parse && this.utf8 == utf8 && buffer == ""
    {
      this.parse, this.utf8, buffer := parse, utf8, "";
    }

    /** A bounded line: None stands for the exception, an empty list for a blank line. */
    method Accept(line: string) returns (r: Option<seq<E>>)
      ensures r == ParseAll([line], parse, utf8)
    {
      assert ParseAll([line][1..], parse, utf8) == Some([]);
      if utf8(line) > MAX_LINE { return None; }
      if Trim(line) == "" { return Some([]); }
      var e := parse(line);
      if e.Some? { Unit([e.value]); }
      r := if e.None? then None else Some([e.value]);
    }

    /** The decoder is dropped when it fails, so only success says what is buffered. */
    method Push(chunk: string) returns (r: Option<seq<E>>)
      modifies this
      ensures var text := old(buffer) + chunk;
              && r == (if utf8(Left(text, "\n")) > MAX_LINE then None else ParseAll(Whole(text, "\n"), parse, utf8))
              && (r.Some? ==> buffer == Left(text, "\n"))
    {
      buffer := buffer + chunk;
      ghost var text := buffer;
      ghost var cut: seq<string> := [];
      var events: seq<E> := [];
      var newline := Find(buffer, "\n");
      assert [] + Whole(buffer, "\n") == Whole(buffer, "\n");
      while newline.Some?
        invariant newline == Find(buffer, "\n")
        invariant Whole(text, "\n") == cut + Whole(buffer, "\n") && Left(text, "\n") == Left(buffer, "\n")
        invariant ParseAll(cut, parse, utf8) == Some(events)
        decreases |buffer|
      {
        var line, after := buffer[..newline.value], buffer[newline.value + 1..];
        assert Whole(buffer, "\n") == [line] + Whole(after, "\n");
        NextLine(cut, line, Whole(after, "\n"), parse, utf8);
        var parsed := Accept(line);
        if parsed.None? { return None; }
        buffer := after;
        events := events + parsed.value;
        cut := cut + [line];
        newline := Find(buffer, "\n");
      }
      NothingWhole(buffer, "\n");
      assert cut + [] == cut;
      r := if utf8(buffer) > MAX_LINE then None else Some(events);
    }

    method Flush() returns (r: Option<seq<E>>)
      modifies this
      ensures buffer == "" && r == ParseAll([old(buffer)], parse, utf8)
    {
      var trailing := buffer;
      buffer := "";
      r := Accept(trailing);
    }
  }

  /** Events framed as SSE with heartbeats anywhere, in any chunks, translated and then
      decoded in any other chunks, are the events that were sent. */
  lemma EventsSurvive<E>(xs: seq<Sent>, wire: seq<string>, lines: seq<string>, parse: string -> Option<E>,
                         utf8: string -> nat)
    requires Transportable(xs, parse, utf8) && Flat(wire) == Wire(xs)
    requires Public(wire, utf8).Some? ==> Flat(lines) == Public(wire, utf8).value
    ensures Public(wire, utf8).Some?
    ensures Decode(lines, "", parse, utf8) == Some((EventsOf(xs, parse), ""))
  {
    SseToLines(xs, wire, parse, utf8);
    NothingToFinish(utf8);
    assert Ndjson(xs) + "" == Ndjson(xs);
    LinesToEvents(xs, lines, parse, utf8);
  }

  lemma NothingToFinish(utf8: string -> nat)
    requires utf8("") == 0
    ensures Finish("", utf8) == Some("")
  {
    assert NoCrLf("") == "" && Left("", "\n\n") == "" && Whole("", "\n\n") == [] && Trim("") == "";
  }
}
