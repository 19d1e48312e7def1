/** The transport framing of the Hrana pipe: a four-byte big-endian length before
    each JSON text, and the buffer that cuts a TCP byte stream back into frames. */
module Frames {
  import opened Wrappers

  type Byte = b: int | 0 <= b < 256
  type Bytes = seq<Byte>

  const HEADER_SIZE := 4
  const MAX_FRAME := 8 * 1024 * 1024

  // --- One frame ---------------------------------------------------------------

  /** DataView.setUint32(0, n, false), n below 2^32. */
  function Header(n: nat): (h: Bytes)
    ensures |h| == HEADER_SIZE
  {
    [n / 0x1000000 % 256, n / 0x10000 % 256, n / 0x100 % 256, n % 256]
  }

  function FrameLength(b: Bytes): nat
    requires |b| >= HEADER_SIZE
  {
    b[0] as int * 0x1000000 + b[1] as int * 0x10000 + b[2] as int * 0x100 + b[3]
  }

  lemma HeaderRoundTrip(n: nat)
    requires n < 0x100000000
    ensures FrameLength(Header(n)) == n
  {
    var a, b, c := n / 0x1000000, n / 0x10000, n / 0x100;
    assert a % 256 == a;
    assert b == 256 * a + b % 256 && c == 256 * b + c % 256 && n == 256 * c + n % 256;
  }

  function Frame(json: Bytes): Bytes { Header(|json|) + json }

  /** What is at the front of a buffer. */
  datatype Front = Incomplete | TooLarge | Whole(json: Bytes, rest: Bytes)

  function Next(b: Bytes): (f: Front)
    ensures f.Whole? ==> |b| >= HEADER_SIZE && b == b[..HEADER_SIZE] + f.json + f.rest
  {
    if |b| < HEADER_SIZE then Incomplete
    else
      var n := FrameLength(b);
      if n > MAX_FRAME then TooLarge
      else if |b| < HEADER_SIZE + n then Incomplete
      else Whole(b[HEADER_SIZE..HEADER_SIZE + n], b[HEADER_SIZE + n..])
  }

  // --- A stream of frames --------------------------------------------------------

  predicate Fits(xs: seq<Bytes>) { forall i | 0 <= i < |xs| :: |xs[i]| <= MAX_FRAME }

  function Stream(xs: seq<Bytes>): Bytes {
    if xs == [] then [] else Frame(xs[0]) + Stream(xs[1..])
  }

  lemma {:induction false} StreamAppend(xs: seq<Bytes>, ys: seq<Bytes>)
    ensures Stream(xs + ys) == Stream(xs) + Stream(ys)
  {
    if xs == [] {
      assert xs + ys == ys;
    } else {
      StreamAppend(xs[1..], ys);
      StreamCons(xs);
      StreamCons(xs + ys);
      assert (xs + ys)[1..] == xs[1..] + ys;
      Associates(Frame(xs[0]), Stream(xs[1..]), Stream(ys));
    }
  }

  lemma StreamCons(xs: seq<Bytes>)
    requires xs != []
    ensures Stream(xs) == Frame(xs[0]) + Stream(xs[1..])
  {
  }

  lemma StreamSnoc(xs: seq<Bytes>, x: Bytes)
    ensures Stream(xs + [x]) == Stream(xs) + Frame(x)
  {
    StreamAppend(xs, [x]);
    assert Stream([x]) == Frame(x) + Stream([]);
  }

  lemma NextOfFrame(x: Bytes, rest: Bytes)
    requires |x| <= MAX_FRAME
    ensures Next(Frame(x) + rest) == Whole(x, rest)
  {
    HeaderRoundTrip(|x|);
    var b := Frame(x) + rest;
    assert b[..HEADER_SIZE] == Header(|x|);
    assert FrameLength(b) == FrameLength(b[..HEADER_SIZE]);
    assert b[HEADER_SIZE..HEADER_SIZE + |x|] == x && b[HEADER_SIZE + |x|..] == rest;
  }

  /** What a prefix of a stream shows at its front: its first frame, whole or not
      yet complete, and never anything else. */
  lemma NextOfPrefix(b: Bytes, xs: seq<Bytes>)
    requires Fits(xs) && b <= Stream(xs)
    ensures !Next(b).TooLarge?
    ensures Next(b).Whole? ==> xs != [] && Next(b).json == xs[0] && Next(b).rest <= Stream(xs[1..])
  {
    if |b| >= HEADER_SIZE {
      var x := xs[0];
      HeaderRoundTrip(|x|);
      assert b[..HEADER_SIZE] == Stream(xs)[..HEADER_SIZE] == Header(|x|);
      assert FrameLength(b) == FrameLength(b[..HEADER_SIZE]);
      var n := HEADER_SIZE + |x|;
      if |b| >= n {
        assert b[..n] == Stream(xs)[..n] == Frame(x);
        assert b[n..] == Stream(xs)[..|b|][n..];
        assert Stream(xs)[n..] == Stream(xs[1..]);
      }
    }
  }

  /** A prefix of a stream whose first `n` frames have been taken off. */
  lemma SuffixOfPrefix(xs: seq<Bytes>, n: nat, b: Bytes)
    requires n <= |xs| && Stream(xs[..n]) + b <= Stream(xs)
    ensures b <= Stream(xs[n..])
  {
    StreamAppend(xs[..n], xs[n..]);
    assert xs[..n] + xs[n..] == xs;
    CutPrefix(Stream(xs[..n]), b, Stream(xs[n..]));
  }

  lemma CutPrefix(p: Bytes, b: Bytes, t: Bytes)
    requires p + b <= p + t
    ensures b <= t
  {
    assert (p + b)[|p|..] == b;
    assert (p + t)[..|p + b|][|p|..] == t[..|b|];
  }

  // --- Cutting a buffer into messages ------------------------------------------------

  /** The messages of a buffer and what is left, or None when some frame is over the
      limit or its text does not parse. */
  function Messages(b: Bytes, isJson: Bytes -> bool): Option<(seq<Bytes>, Bytes)>
    decreases |b|
  {
    match Next(b)
    case Incomplete => Some(([], b))
    case TooLarge => None
    case Whole(json, rest) =>
      if !isJson(json) then None
      else match Messages(rest, isJson)
           case None => None
           case Some((ms, left)) => Some(([json] + ms, left))
  }

  /** The messages of a stream prefix are the stream's first messages, and the rest
      is a prefix of what follows them. */
  lemma {:induction false} MessagesOfPrefix(b: Bytes, xs: seq<Bytes>, isJson: Bytes -> bool)
    requires Fits(xs) && b <= Stream(xs)
    ensures match Messages(b, isJson)
            case None => exists i | 0 <= i < |xs| :: !isJson(xs[i])
            case Some((ms, left)) => ms <= xs && b == Stream(ms) + left && left <= Stream(xs[|ms|..])
    decreases |b|
  {
    NextOfPrefix(b, xs);
    match Next(b)
    case Incomplete => assert Stream([]) + b == b && xs[0..] == xs;
    case TooLarge =>
    case Whole(json, rest) =>
      if isJson(json) {
        MessagesOfPrefix(rest, xs[1..], isJson);
        match Messages(rest, isJson) {
          case None =>
            var i :| 0 <= i < |xs[1..]| && !isJson(xs[1..][i]);
            assert !isJson(xs[i + 1]);
          case Some((ms, left)) =>
            FrontFrame(b, xs, json, rest);
            FrameMore(b, xs, rest, ms, left);
        }
      }
  }

  /** A first frame before messages already cut. */
  lemma FrameMore(b: Bytes, xs: seq<Bytes>, rest: Bytes, ms: seq<Bytes>, left: Bytes)
    requires xs != [] && b == Frame(xs[0]) + rest && rest == Stream(ms) + left
    requires ms <= xs[1..] && left <= Stream(xs[1..][|ms|..])
    ensures [xs[0]] + ms <= xs && b == Stream([xs[0]] + ms) + left && left <= Stream(xs[|[xs[0]] + ms|..])
  {
    var all := [xs[0]] + ms;
    assert all[0] == xs[0] && all[1..] == ms;
    StreamCons(all);
    Associates(Frame(xs[0]), Stream(ms), left);
    assert xs == [xs[0]] + xs[1..];
    assert xs[1..][|ms|..] == xs[|all|..];
  }

  lemma Associates(a: Bytes, b: Bytes, c: Bytes)
    ensures a + (b + c) == a + b + c
  {
  }

  /** The front of what follows the first `n` frames is frame `n`. */
  lemma FrontOfRest(xs: seq<Bytes>, n: nat, b: Bytes)
    requires n <= |xs| && Fits(xs) && Stream(xs[..n]) + b <= Stream(xs)
    ensures !Next(b).TooLarge?
    ensures Next(b).Whole? ==> n < |xs| && Next(b).json == xs[n]
    ensures Next(b).Whole? ==> Stream(xs[..n + 1]) + Next(b).rest == Stream(xs[..n]) + b
    ensures n == |xs| ==> b == []
  {
    SuffixOfPrefix(xs, n, b);
    NextOfPrefix(b, xs[n..]);
    if Next(b).Whole? {
      FrontFrame(b, xs[n..], xs[n], Next(b).rest);
      OneFrameOn(xs, n, b, Next(b).rest);
    }
  }

  lemma OneFrameOn(xs: seq<Bytes>, n: nat, b: Bytes, rest: Bytes)
    requires n < |xs| && b == Frame(xs[n]) + rest
    ensures Stream(xs[..n + 1]) + rest == Stream(xs[..n]) + b
  {
    StreamSnoc(xs[..n], xs[n]);
    assert xs[..n + 1] == xs[..n] + [xs[n]];
    Associates(Stream(xs[..n]), Frame(xs[n]), rest);
  }

  /** The messages of what follows the first `n` frames are the next frames. */
  lemma MessagesOfRest(xs: seq<Bytes>, n: nat, b: Bytes, isJson: Bytes -> bool)
    requires n <= |xs| && Fits(xs) && Stream(xs[..n]) + b <= Stream(xs)
    ensures match Messages(b, isJson)
            case None => true
            case Some((ms, left)) => xs[..n] + ms <= xs && Stream(xs[..n] + ms) + left == Stream(xs[..n]) + b
  {
    SuffixOfPrefix(xs, n, b);
    MessagesOfPrefix(b, xs[n..], isJson);
    match Messages(b, isJson)
    case None =>
    case Some((ms, left)) =>
      StreamAppend(xs[..n], ms);
      PrefixOn(xs, n, ms);
      Associates(Stream(xs[..n]), Stream(ms), left);
  }

  lemma PrefixOn(xs: seq<Bytes>, n: nat, ms: seq<Bytes>)
    requires n <= |xs| && ms <= xs[n..]
    ensures xs[..n] + ms <= xs
  {
    assert xs == xs[..n] + xs[n..];
  }

  lemma FrontFrame(b: Bytes, xs: seq<Bytes>, json: Bytes, rest: Bytes)
    requires xs != [] && Fits(xs) && b <= Stream(xs) && Next(b) == Whole(json, rest) && json == xs[0]
    ensures b == Frame(json) + rest
  {
    assert b[..HEADER_SIZE] == Stream(xs)[..HEADER_SIZE] == Header(|json|);
  }

  /** `found` in front of what the rest of the buffer gives. */
  function After(found: seq<Bytes>, more: Option<(seq<Bytes>, Bytes)>): Option<(seq<Bytes>, Bytes)> {
    match more
    case None => None
    case Some((ms, left)) => Some((found + ms, left))
  }

  lemma AfterNothing(m: Option<(seq<Bytes>, Bytes)>)
    ensures After([], m) == m
  {
    match m
    case None =>
    case Some((ms, left)) => assert [] + ms == ms;
  }

  lemma AfterStep(found: seq<Bytes>, b: Bytes, isJson: Bytes -> bool)
    ensures match Next(b)
            case Incomplete => After(found, Messages(b, isJson)) == Some((found, b))
            case TooLarge => After(found, Messages(b, isJson)) == None
            case Whole(json, rest) =>
              After(found, Messages(b, isJson)) ==
              if isJson(json) then After(found + [json], Messages(rest, isJson)) else None
  {
    match Next(b)
    case Incomplete => assert found + [] == found;
    case TooLarge =>
    case Whole(json, rest) =>
      match Messages(rest, isJson) {
        case None =>
        case Some((ms, left)) => assert found + ([json] + ms) == found + [json] + ms;
      }
  }

  // --- The buffer itself -------------------------------------------------------------

  function Flat(chunks: seq<Bytes>): Bytes {
    if chunks == [] then [] else Flat(chunks[..|chunks| - 1]) + chunks[|chunks| - 1]
  }

  /** Accumulates TCP chunks and yields the complete messages. */
  class FrameBuffer {
    var chunks: seq<Bytes>
    var totalLength: nat

    ghost predicate Valid()
      reads this
    {
      totalLength == |Flat(chunks)|
    }

    ghost function Buffered(): Bytes
      reads this
    {
      Flat(chunks)
    }

    constructor ()
      ensures Valid() && Buffered() == []
    {
      chunks, totalLength := [], 0;
    }

    /** Refused, with nothing stored, past one maximal frame and its header. */
    method Push(chunk: Bytes) returns (ok: bool)
      requires Valid()
      modifies this
      ensures Valid()
      ensures ok <==> |old(Buffered())| + |chunk| <= MAX_FRAME + HEADER_SIZE
      ensures Buffered() == if ok then old(Buffered()) + chunk else old(Buffered())
    {
      if totalLength + |chunk| > MAX_FRAME + HEADER_SIZE { return false; }
      assert (chunks + [chunk])[..|chunks|] == chunks;
      chunks := chunks + [chunk];
      totalLength := totalLength + |chunk|;
      return true;
    }

    method Consolidate() returns (buffer: Bytes)
      requires Valid()
      modifies this`chunks
      ensures Valid() && buffer == Buffered() == old(Buffered())
    {
      if |chunks| == 1 {
        assert Flat(chunks[..0]) == [];
        return chunks[0];
      }
      buffer := [];
      for i := 0 to |chunks|
        invariant buffer == Flat(chunks[..i])
      {
        assert chunks[..i + 1][..i] == chunks[..i];
        buffer := buffer + chunks[i];
      }
      assert chunks[..|chunks|] == chunks;
      chunks := [buffer];
      assert Flat([buffer][..0]) == [];
    }

    method Drain(isJson: Bytes -> bool) returns (messages: Option<seq<Bytes>>)
      requires Valid()
      modifies this
      ensures Valid()
      ensures match Messages(old(Buffered()), isJson)
              case None => messages == None
              case Some((ms, left)) => messages == Some(ms) && Buffered() == left
    {
      if totalLength < HEADER_SIZE { return Some([]); }
      var buffer := Consolidate();
      var cut := CutFrames(buffer, isJson);
      match cut
      case None => return None;
      case Some((found, remainder)) =>
        if remainder != [] {
          chunks, totalLength := [remainder], |remainder|;
          assert Flat(chunks[..0]) == [];
        } else {
          chunks, totalLength := [], 0;
        }
        return Some(found);
    }
  }

  /** The loop over the consolidated buffer. */
  method CutFrames(buffer: Bytes, isJson: Bytes -> bool) returns (cut: Option<(seq<Bytes>, Bytes)>)
    ensures cut == Messages(buffer, isJson)
  {
    var found, offset := [], 0;
    assert buffer[0..] == buffer && [] + buffer == buffer;
    AfterNothing(Messages(buffer, isJson));
    while true
      invariant 0 <= offset <= |buffer|
      invariant Messages(buffer, isJson) == After(found, Messages(buffer[offset..], isJson))
      decreases |buffer| - offset
    {
      var rest := buffer[offset..];
      AfterStep(found, rest, isJson);
      match Next(rest) {
        case Incomplete => return Some((found, rest));
        case TooLarge => return None;
        case Whole(json, left) =>
          if !isJson(json) { return None; }
          found := found + [json];
          offset := offset + HEADER_SIZE + |json|;
          assert buffer[offset..] == left;
      }
    }
  }
}
