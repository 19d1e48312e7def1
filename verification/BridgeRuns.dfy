/** A bridge generation, its TCP connection and the Hrana server behind it, under
    every interleaving: a response that reaches a caller is the server's answer to
    the caller's own request. */
module BridgeRuns {
  import opened Wrappers
  import opened Frames
  import opened BridgeChannel
  import opened BridgeInvariants

  /** HranaServer.serve: `asked` and `answers` are the requests answered so far and
      the responses written for them, `todo` the rest of the last drained batch. */
  datatype Server = Server(alive: bool, buffer: Bytes, todo: seq<Bytes>, asked: seq<Bytes>, answers: seq<Bytes>)

  /** `read` of the written bytes have reached the server, and `heard` of its output
      `out` the bridge. */
  datatype System = System(channel: Channel, server: Server, read: nat, out: Bytes, heard: nat)

  datatype Event =
    | Reserving(owner: nat)
    | Sending(owner: nat, payload: Bytes, room: nat)
    | Aborting(owner: nat, id: nat)
    | HangingUp(owner: nat, id: nat)
    | Finishing(owner: nat)
    | Writable(room: nat)
    | Data(n: nat)
    | ConnectionFails
    | SocketDies
    | Retiring
    | ShuttingDown
    | Received(n: nat)
    | Answering(response: Bytes)
    | ServerStops

  function Connected(nextId: nat): System {
    System(Opened(nextId), Server(true, [], [], [], []), 0, [], 0)
  }

  ghost predicate AimedAt(c: Channel, owner: nat, id: nat) {
    (exists x :: Listens(c, owner, x)) ==> Listens(c, owner, id)
  }

  /** When an event can happen. Any split of either byte stream is possible, and the
      server may answer anything that is JSON, stop, or be cut off at any moment. */
  ghost predicate Enabled(s: System, e: Event, isJson: Bytes -> bool) {
    var c := s.channel;
    match e
    case Reserving(owner) => !c.retired && owner !in c.open
    case Sending(owner, payload, room) =>
      (owner in c.open || owner in c.aborted) && forall id | id in c.requests :: c.requests[id].owner != owner
    case Aborting(owner, id) => AimedAt(c, owner, id)
    case HangingUp(owner, id) => AimedAt(c, owner, id)
    case Finishing(owner) => forall id | id in c.requests && c.requests[id].owner == owner :: c.requests[id].settled
    case Data(n) => Ready(c) && s.heard + n <= |s.out|
    case Received(n) => s.server.alive && s.server.todo == [] && s.read + n <= |c.written|
    case Answering(response) => s.server.alive && s.server.todo != [] && isJson(response)
    case _ => true
  }

  function Feed(srv: Server, chunk: Bytes, isJson: Bytes -> bool): Server {
    if |srv.buffer| + |chunk| > MAX_FRAME + HEADER_SIZE then srv.(alive := false)
    else match Messages(srv.buffer + chunk, isJson)
         case None => srv.(alive := false)
         case Some((ms, left)) => srv.(buffer := left, todo := ms)
  }

  ghost function Step(s: System, e: Event, isJson: Bytes -> bool): System
    requires Enabled(s, e, isJson)
  {
    var c := s.channel;
    match e
    case Reserving(owner) => s.(channel := Reserve(c, owner))
    case Sending(owner, payload, room) => s.(channel := SendAndReceive(c, owner, payload, room))
    case Aborting(owner, id) => s.(channel := Abort(c, owner, id))
    case HangingUp(owner, id) => s.(channel := Release(Abort(c, owner, id), owner))
    case Finishing(owner) => s.(channel := Release(c, owner))
    case Writable(room) => s.(channel := OnWritable(c, room))
    case Data(n) => s.(channel := HandleTcpData(c, s.out[s.heard..s.heard + n], isJson), heard := s.heard + n)
    case ConnectionFails => s.(channel := FailConnection(c))
    case SocketDies => s.(channel := c.(destroyed := true))
    case Retiring => s.(channel := Retire(c))
    case ShuttingDown => s.(channel := Shutdown(c))
    case Received(n) => s.(server := Feed(s.server, c.written[s.read..s.read + n], isJson), read := s.read + n)
    case Answering(response) =>
      if |response| > MAX_FRAME then s.(server := s.server.(alive := false))
      else s.(server := s.server.(todo := s.server.todo[1..], asked := s.server.asked + [s.server.todo[0]],
                                  answers := s.server.answers + [response]),
              out := s.out + Frame(response))
    case ServerStops => s.(server := s.server.(alive := false))
  }

  ghost predicate CanRun(s: System, es: seq<Event>, isJson: Bytes -> bool)
    decreases |es|
  {
    es == [] || (Enabled(s, es[0], isJson) && CanRun(Step(s, es[0], isJson), es[1..], isJson))
  }

  ghost function Run(s: System, es: seq<Event>, isJson: Bytes -> bool): System
    requires CanRun(s, es, isJson)
    decreases |es|
  {
    if es == [] then s else Run(Step(s, es[0], isJson), es[1..], isJson)
  }

  // --- The invariant of the whole system ---------------------------------------------

  /** The server answers, in order, what the bridge sent. */
  ghost predicate Serving(sent: seq<Bytes>, written: Bytes, srv: Server, read: nat) {
    && |srv.asked| == |srv.answers| && srv.asked + srv.todo <= sent
    && read <= |written|
    && (srv.alive ==> written[..read] == Stream(srv.asked + srv.todo) + srv.buffer)
  }

  ghost predicate Speaking(answers: seq<Bytes>, out: Bytes, isJson: Bytes -> bool) {
    && out == Stream(answers) && Fits(answers)
    && forall i | 0 <= i < |answers| :: isJson(answers[i])
  }

  /** What the bridge has heard is the answers it took off, then its buffer. */
  ghost predicate Hearing(c: Channel, answers: seq<Bytes>, out: Bytes, heard: nat) {
    && 0 <= Consumed(c) <= |answers| && heard <= |out|
    && out[..heard] == Stream(answers[..Consumed(c)]) + c.tcpBuffer
  }

  /** Every resolved request got the answer at its own place in dispatch order. */
  ghost predicate Matched(rs: Book, dispatched: seq<nat>, answers: seq<Bytes>) {
    forall id, f | id in rs && Resolved(f) in rs[id].calls ::
      exists m :: 0 <= m < |answers| && m < |dispatched| && dispatched[m] == id && answers[m] == f
  }

  ghost predicate Sound(s: System, isJson: Bytes -> bool) {
    && Consistent(s.channel)
    && Serving(s.channel.sent, s.channel.written, s.server, s.read)
    && Speaking(s.server.answers, s.out, isJson)
    && (Ready(s.channel) ==> Hearing(s.channel, s.server.answers, s.out, s.heard))
    && Matched(s.channel.requests, s.channel.dispatched, s.server.answers)
  }

  // --- Events that take no response ------------------------------------------------------

  lemma ServingKept(c: Channel, c': Channel, srv: Server, read: nat)
    requires Consistent(c) && Consistent(c') && c.sent <= c'.sent && Serving(c.sent, c.written, srv, read)
    ensures Serving(c'.sent, c'.written, srv, read)
  {
    StreamAppend(c.sent, c'.sent[|c.sent|..]);
    assert c'.sent == c.sent + c'.sent[|c.sent|..];
    assert c'.written[..read] == c.written[..read];
  }

  lemma MatchedKept(c: Channel, c': Channel, answers: seq<Bytes>)
    requires Keeps(c, c') && Matched(c.requests, c.dispatched, answers)
    ensures Matched(c'.requests, c'.dispatched, answers)
  {
    forall id, f | id in c'.requests && Resolved(f) in c'.requests[id].calls
      ensures exists m :: 0 <= m < |answers| && m < |c'.dispatched| && c'.dispatched[m] == id && answers[m] == f
    {
      var m :| 0 <= m < |answers| && m < |c.dispatched| && c.dispatched[m] == id && answers[m] == f;
      assert c'.dispatched[m] == id;
    }
  }

  lemma ChannelStepSound(s: System, c': Channel, isJson: Bytes -> bool)
    requires Sound(s, isJson) && Consistent(c') && Keeps(s.channel, c')
    ensures Sound(s.(channel := c'), isJson)
  {
    ServingKept(s.channel, c', s.server, s.read);
    MatchedKept(s.channel, c', s.server.answers);
  }

  // --- Responses --------------------------------------------------------------------------

  lemma FitsSent(c: Channel)
    requires Consistent(c)
    ensures Fits(c.sent)
  {
  }

  lemma MatchedAnswer(rs: Book, rs': Book, dispatched: seq<nat>, answers: seq<Bytes>, n: nat)
    requires Matched(rs, dispatched, answers) && n < |answers| && n < |dispatched|
    requires OneAnswered(rs, rs', dispatched[n], answers[n])
    ensures Matched(rs', dispatched, answers)
  {
  }

  /** Draining takes every complete response and gives each to the request it
      answers; with a server that follows the protocol it never fails. */
  lemma {:induction false} DrainFramesSound(c: Channel, answers: seq<Bytes>, p: Bytes, isJson: Bytes -> bool)
    requires Consistent(c) && Ready(c) && |answers| <= |c.dispatched| && 0 <= Consumed(c) <= |answers|
    requires Speaking(answers, Stream(answers), isJson) && Matched(c.requests, c.dispatched, answers)
    requires p == Stream(answers[..Consumed(c)]) + c.tcpBuffer && p <= Stream(answers)
    ensures var c' := DrainFrames(c, isJson);
            && Consistent(c') && Ready(c') && c'.dispatched == c.dispatched && c'.sent == c.sent
               && c'.written == c.written
            && (c.ended ==> c'.ended)
            && 0 <= Consumed(c') <= |answers| && p == Stream(answers[..Consumed(c')]) + c'.tcpBuffer
            && Matched(c'.requests, c'.dispatched, answers)
            && Next(c'.tcpBuffer) == Incomplete
    decreases |c.pending|
  {
    FrontOfRest(answers, Consumed(c), c.tcpBuffer);
    if c.pending != [] {
      match Next(c.tcpBuffer)
      case Incomplete =>
      case TooLarge =>
      case Whole(frame, rest) =>
        AnswerOk(c, frame, rest);
        MatchedAnswer(c.requests, Answer(c, frame, rest).requests, c.dispatched, answers, Consumed(c));
        DrainFramesSound(Answer(c, frame, rest), answers, p, isJson);
    }
  }

  /** More bytes arrive. The connection survives exactly when they fit the buffer. */
  lemma DataSound(s: System, n: nat, isJson: Bytes -> bool)
    requires Sound(s, isJson) && Enabled(s, Data(n), isJson)
    ensures Sound(Step(s, Data(n), isJson), isJson)
    ensures Step(s, Data(n), isJson).channel.connected <==> |s.channel.tcpBuffer| + n <= MAX_FRAME + HEADER_SIZE
  {
    var data := s.out[s.heard..s.heard + n];
    if |s.channel.tcpBuffer| + n > MAX_FRAME + HEADER_SIZE {
      DataFails(s, s.heard + n, isJson);
      assert HandleTcpData(s.channel, data, isJson) == FailConnection(s.channel);
    } else {
      ReadyPrepared(s, isJson);
      DataFits(s, n, isJson);
      HeardSound(s, HandleTcpData(s.channel, data, isJson), s.heard + n, isJson);
    }
  }

  lemma DataFails(s: System, heard: nat, isJson: Bytes -> bool)
    requires Sound(s, isJson)
    ensures Sound(s.(channel := FailConnection(s.channel), heard := heard), isJson)
    ensures !FailConnection(s.channel).connected
  {
    FailConnectionOk(s.channel);
    ChannelStepSound(s, FailConnection(s.channel), isJson);
  }

  /** The channel after more bytes, still ready. */
  ghost predicate HeardWell(c: Channel, c': Channel, answers: seq<Bytes>, out: Bytes, heard: nat) {
    && Consistent(c') && Ready(c') && c'.sent == c.sent && c'.written == c.written
    && Hearing(c', answers, out, heard) && Matched(c'.requests, c'.dispatched, answers)
  }

  lemma DataFits(s: System, n: nat, isJson: Bytes -> bool)
    requires Prepared(s.channel, s.server.answers, s.out, s.heard, isJson) && s.heard + n <= |s.out|
    requires |s.channel.tcpBuffer| + n <= MAX_FRAME + HEADER_SIZE
    ensures HeardWell(s.channel, HandleTcpData(s.channel, s.out[s.heard..s.heard + n], isJson),
                      s.server.answers, s.out, s.heard + n)
  {
    var c, answers, out := s.channel, s.server.answers, s.out;
    MoreHeard(out, s.heard, n, Stream(answers[..Consumed(c)]), c.tcpBuffer);
    DrainFramesSound(c.(tcpBuffer := c.tcpBuffer + out[s.heard..s.heard + n]), answers, out[..s.heard + n], isJson);
  }

  lemma HeardSound(s: System, c': Channel, heard: nat, isJson: Bytes -> bool)
    requires Sound(s, isJson) && HeardWell(s.channel, c', s.server.answers, s.out, heard)
    ensures Sound(s.(channel := c', heard := heard), isJson) && c'.connected
  {
  }

  lemma MoreHeard(out: Bytes, heard: nat, n: nat, taken: Bytes, buffer: Bytes)
    requires heard + n <= |out| && out[..heard] == taken + buffer
    ensures out[..heard + n] == taken + (buffer + out[heard..heard + n])
  {
    assert out[..heard + n] == out[..heard] + out[heard..heard + n];
    Associates(taken, buffer, out[heard..heard + n]);
  }

  ghost predicate Prepared(c: Channel, answers: seq<Bytes>, out: Bytes, heard: nat, isJson: Bytes -> bool) {
    && Consistent(c) && Ready(c) && |answers| <= |c.dispatched|
    && Speaking(answers, out, isJson) && Hearing(c, answers, out, heard)
    && Matched(c.requests, c.dispatched, answers)
  }

  lemma ReadyPrepared(s: System, isJson: Bytes -> bool)
    requires Sound(s, isJson) && Ready(s.channel)
    ensures Prepared(s.channel, s.server.answers, s.out, s.heard, isJson)
  {
  }

  // --- The server's side ---------------------------------------------------------------------

  lemma ReceivedSound(s: System, n: nat, isJson: Bytes -> bool)
    requires Sound(s, isJson) && Enabled(s, Received(n), isJson)
    ensures Sound(Step(s, Received(n), isJson), isJson)
  {
    ReceivedServing(s.channel, s.server, s.read, n, isJson);
    ServerStepSound(s, Feed(s.server, s.channel.written[s.read..s.read + n], isJson), s.read + n, isJson);
  }

  lemma ReceivedServing(c: Channel, srv: Server, read: nat, n: nat, isJson: Bytes -> bool)
    requires Consistent(c) && Serving(c.sent, c.written, srv, read)
    requires srv.alive && srv.todo == [] && read + n <= |c.written|
    ensures Serving(c.sent, c.written, Feed(srv, c.written[read..read + n], isJson), read + n)
  {
    FitsSent(c);
    FedServing(c.sent, srv, read, n, isJson);
  }

  lemma FedServing(sent: seq<Bytes>, srv: Server, read: nat, n: nat, isJson: Bytes -> bool)
    requires Fits(sent) && Serving(sent, Stream(sent), srv, read)
    requires srv.alive && srv.todo == [] && read + n <= |Stream(sent)|
    ensures Serving(sent, Stream(sent), Feed(srv, Stream(sent)[read..read + n], isJson), read + n)
  {
    assert srv.asked + srv.todo == srv.asked;
    MoreHeard(Stream(sent), read, n, Stream(srv.asked), srv.buffer);
    assert srv.asked == sent[..|srv.asked|];
    MessagesOfRest(sent, |srv.asked|, srv.buffer + Stream(sent)[read..read + n], isJson);
  }

  lemma ServerStepSound(s: System, srv: Server, read: nat, isJson: Bytes -> bool)
    requires Sound(s, isJson) && srv.answers == s.server.answers
    requires Serving(s.channel.sent, s.channel.written, srv, read)
    ensures Sound(s.(server := srv, read := read), isJson)
  {
  }

  lemma AnsweringSound(s: System, response: Bytes, isJson: Bytes -> bool)
    requires Sound(s, isJson) && Enabled(s, Answering(response), isJson)
    ensures Sound(Step(s, Answering(response), isJson), isJson)
  {
    if |response| <= MAX_FRAME {
      var c, srv := s.channel, s.server;
      AnsweredServing(c.sent, c.written, srv, s.read, response);
      AnsweredHearing(c, srv.answers, s.out, s.heard, response, isJson);
    }
  }

  lemma AnsweredServing(sent: seq<Bytes>, written: Bytes, srv: Server, read: nat, response: Bytes)
    requires Serving(sent, written, srv, read) && srv.todo != []
    ensures Serving(sent, written, srv.(todo := srv.todo[1..], asked := srv.asked + [srv.todo[0]],
                                        answers := srv.answers + [response]), read)
  {
    assert srv.asked + [srv.todo[0]] + srv.todo[1..] == srv.asked + srv.todo;
  }

  lemma AnsweredHearing(c: Channel, answers: seq<Bytes>, out: Bytes, heard: nat, response: Bytes, isJson: Bytes -> bool)
    requires Speaking(answers, out, isJson) && |response| <= MAX_FRAME && isJson(response)
    requires Ready(c) ==> Hearing(c, answers, out, heard)
    requires Matched(c.requests, c.dispatched, answers)
    ensures Speaking(answers + [response], out + Frame(response), isJson)
    ensures Ready(c) ==> Hearing(c, answers + [response], out + Frame(response), heard)
    ensures Matched(c.requests, c.dispatched, answers + [response])
  {
    StreamSnoc(answers, response);
    if Ready(c) {
      assert (out + Frame(response))[..heard] == out[..heard];
      assert (answers + [response])[..Consumed(c)] == answers[..Consumed(c)];
    }
    assert forall m | 0 <= m < |answers| :: (answers + [response])[m] == answers[m];
  }

  // --- Every run --------------------------------------------------------------------------

  lemma ExchangeSound(s: System, e: Event, isJson: Bytes -> bool)
    requires Sound(s, isJson) && Enabled(s, e, isJson)
    requires e.Reserving? || e.Sending? || e.Aborting? || e.HangingUp? || e.Finishing?
    ensures Sound(Step(s, e, isJson), isJson) && Keeps(s.channel, Step(s, e, isJson).channel)
  {
    var c := s.channel;
    match e {
      case Reserving(owner) => ReserveOk(c, owner);
      case Sending(owner, payload, room) => SendOk(c, owner, payload, room);
      case Aborting(owner, id) => AbortOk(c, owner, id);
      case HangingUp(owner, id) => HangUpOk(c, owner, id);
      case Finishing(owner) => ReleaseOk(c, owner);
    }
    ChannelStepSound(s, Step(s, e, isJson).channel, isJson);
  }

  lemma SocketSound(s: System, e: Event, isJson: Bytes -> bool)
    requires Sound(s, isJson) && Enabled(s, e, isJson)
    requires e.Writable? || e.ConnectionFails? || e.SocketDies? || e.Retiring? || e.ShuttingDown?
    ensures Sound(Step(s, e, isJson), isJson) && Keeps(s.channel, Step(s, e, isJson).channel)
  {
    var c := s.channel;
    match e {
      case Writable(room) => OnWritableOk(c, room);
      case ConnectionFails => FailConnectionOk(c);
      case SocketDies =>
      case Retiring => RetireOk(c);
      case ShuttingDown => ShutdownOk(c);
    }
    ChannelStepSound(s, Step(s, e, isJson).channel, isJson);
  }

  lemma StepSound(s: System, e: Event, isJson: Bytes -> bool)
    requires Sound(s, isJson) && Enabled(s, e, isJson)
    ensures Sound(Step(s, e, isJson), isJson)
    ensures s.channel.ended ==>
              Step(s, e, isJson).channel.ended && Step(s, e, isJson).channel.written == s.channel.written
  {
    match e
    case Data(n) => DataSound(s, n, isJson);
    case Received(n) => ReceivedSound(s, n, isJson);
    case Answering(response) => AnsweringSound(s, response, isJson);
    case ServerStops =>
    case Reserving(_) => ExchangeSound(s, e, isJson);
    case Sending(_, _, _) => ExchangeSound(s, e, isJson);
    case Aborting(_, _) => ExchangeSound(s, e, isJson);
    case HangingUp(_, _) => ExchangeSound(s, e, isJson);
    case Finishing(_) => ExchangeSound(s, e, isJson);
    case Writable(_) => SocketSound(s, e, isJson);
    case ConnectionFails => SocketSound(s, e, isJson);
    case SocketDies => SocketSound(s, e, isJson);
    case Retiring => SocketSound(s, e, isJson);
    case ShuttingDown => SocketSound(s, e, isJson);
  }

  lemma {:induction false} RunSound(s: System, es: seq<Event>, isJson: Bytes -> bool)
    requires Sound(s, isJson) && CanRun(s, es, isJson)
    ensures Sound(Run(s, es, isJson), isJson)
    ensures s.channel.ended ==> Run(s, es, isJson).channel.written == s.channel.written
    decreases |es|
  {
    if es != [] {
      StepSound(s, es[0], isJson);
      RunSound(Step(s, es[0], isJson), es[1..], isJson);
    }
  }

  lemma ConnectedSound(nextId: nat, isJson: Bytes -> bool)
    ensures Sound(Connected(nextId), isJson)
  {
    var s := Connected(nextId);
    assert s.server.answers[..0] == [] && s.server.asked + s.server.todo == [];
  }

  // --- What callers rely on ------------------------------------------------------------------

  /** The request went out as number `m`, and the server's answer number `m`, given
      to the payload of that request, is `frame`. */
  ghost predicate AnsweredAt(s: System, id: nat, m: nat, frame: Bytes) {
    && id in s.channel.requests
    && m < |s.server.answers| && m < |s.channel.dispatched| && m < |s.server.asked|
    && s.channel.dispatched[m] == id && s.server.answers[m] == frame
    && s.server.asked[m] == s.channel.requests[id].payload
  }

  /** A resolved request holds the answer the server gave to that request's own
      payload, the one at the request's place in dispatch order. */
  lemma OwnAnswer(s: System, id: nat, frame: Bytes, isJson: Bytes -> bool)
    requires Sound(s, isJson) && id in s.channel.requests && Resolved(frame) in s.channel.requests[id].calls
    ensures exists m :: AnsweredAt(s, id, m, frame)
  {
    var m: nat :| 0 <= m < |s.server.answers| && m < |s.channel.dispatched|
             && s.channel.dispatched[m] == id && s.server.answers[m] == frame;
    assert (s.server.asked + s.server.todo)[m] == s.server.asked[m];
    assert s.server.asked[m] == s.channel.sent[m];
    assert AnsweredAt(s, id, m, frame);
  }

  /** Two resolved requests hold two different answers of the server, even if the
      bytes agree: each has one place in dispatch order, and no place serves both. */
  lemma AnswersNotShared(s: System, a: nat, b: nat, f: Bytes, g: Bytes, isJson: Bytes -> bool)
    requires Sound(s, isJson) && a != b && a in s.channel.requests && b in s.channel.requests
    requires Resolved(f) in s.channel.requests[a].calls && Resolved(g) in s.channel.requests[b].calls
    ensures exists m, n :: m != n && AnsweredAt(s, a, m, f) && AnsweredAt(s, b, n, g)
    ensures forall m, n :: AnsweredAt(s, a, m, f) && AnsweredAt(s, a, n, f) ==> m == n
  {
    OwnAnswer(s, a, f, isJson);
    OwnAnswer(s, b, g, isJson);
    var m :| AnsweredAt(s, a, m, f);
    var n :| AnsweredAt(s, b, n, g);
    assert m != n;
  }

  /** Each request is settled at most once; on a live connection nobody is rejected
      who did not cancel, and on a lost one nobody is left waiting. */
  lemma SettledAtMostOnce(s: System, id: nat, isJson: Bytes -> bool)
    requires Sound(s, isJson) && id in s.channel.requests
    ensures var r := s.channel.requests[id];
            && |r.calls| <= 1 && (r.settled <==> |r.calls| == 1)
            && (Ready(s.channel) && r.calls == [Rejected] ==> r.canceled)
            && (!s.channel.connected ==> r.settled)
  {
  }

  ghost function Outstanding(c: Channel): set<nat> {
    set id | id in c.requests && !c.requests[id].settled
  }

  /** Uncanceled outstanding requests never outnumber the admitted exchanges, and
      those never exceed the limit. */
  lemma OutstandingBounded(s: System, isJson: Bytes -> bool)
    requires Sound(s, isJson)
    ensures |Outstanding(s.channel)| <= |s.channel.open| <= MAX_PENDING_REQUESTS
  {
    OwnersDistinct(s.channel.requests, Outstanding(s.channel), s.channel.open);
  }

  lemma {:induction false} OwnersDistinct(rs: Book, ids: set<nat>, owners: set<nat>)
    requires forall id | id in ids :: id in rs && rs[id].owner in owners
    requires forall a, b | a in ids && b in ids && a != b :: rs[a].owner != rs[b].owner
    ensures |ids| <= |owners|
    decreases ids
  {
    if ids != {} {
      var id := Pick(ids);
      OwnersDistinct(rs, ids - {id}, owners - {rs[id].owner});
    }
  }

  /** A generation ends its own socket only when it is retired and drained, and
      whatever happens afterwards writes nothing more. */
  lemma EndsDrained(s: System, es: seq<Event>, isJson: Bytes -> bool)
    requires Sound(s, isJson) && s.channel.ended && CanRun(s, es, isJson)
    ensures s.channel.retired && s.channel.open == {} && s.channel.pending == []
    ensures s.channel.queued == [] && !s.channel.writing
    ensures Run(s, es, isJson).channel.written == s.channel.written
  {
    RunSound(s, es, isJson);
  }

  // --- Overlapping generations -----------------------------------------------------------------

  /** Every connection the bridge has had, and the one new exchanges use. */
  datatype Bridge = Bridge(generations: seq<System>, current: Option<nat>)

  datatype BridgeEvent = Connecting | Happening(g: nat, e: Event) | Closing(g: nat)

  ghost predicate BridgeEnabled(b: Bridge, e: BridgeEvent, isJson: Bytes -> bool) {
    match e
    case Connecting => true
    case Happening(g, e) =>
      && g < |b.generations| && Enabled(b.generations[g], e, isJson)
      && !e.Retiring? && (e.Reserving? ==> b.current == Some(g))
    case Closing(g) => g < |b.generations|
  }

  /** A new connection retires the current one; the socket's close event fails its
      generation and, if it is the current one, leaves none. */
  ghost function BridgeStep(b: Bridge, e: BridgeEvent, isJson: Bytes -> bool): Bridge
    requires BridgeEnabled(b, e, isJson)
  {
    match e
    case Connecting =>
      if b.current.Some? && b.current.value < |b.generations| then
        var previous := b.generations[b.current.value];
        Bridge(b.generations[b.current.value := Step(previous, Retiring, isJson)]
                 + [Connected(previous.channel.nextId)],
               Some(|b.generations|))
      else Bridge(b.generations + [Connected(1)], Some(|b.generations|))
    case Happening(g, e) => b.(generations := b.generations[g := Step(b.generations[g], e, isJson)])
    case Closing(g) => Bridge(b.generations[g := Step(b.generations[g], ConnectionFails, isJson)],
                              if b.current == Some(g) then None else b.current)
  }

  /** A new connection is the current one from then on; its ids go on where those of the
      one it replaces stood, or start at 1. A connection that closes is no longer current,
      and leaves any other so. */
  lemma CurrentConnection(b: Bridge, g: nat, isJson: Bytes -> bool)
    requires g < |b.generations| && (b.current.Some? ==> b.current.value < |b.generations|)
    ensures var n, c := |b.generations|, BridgeStep(b, Connecting, isJson);
            && |c.generations| == n + 1 && c.current == Some(n)
            && c.generations[n] == Connected(if b.current.Some?
                                             then b.generations[b.current.value].channel.nextId else 1)
            && (b.current.Some? ==> c.generations[b.current.value].channel.retired)
            && forall i | 0 <= i < n && b.current != Some(i) :: c.generations[i] == b.generations[i]
    ensures var c := BridgeStep(b, Closing(g), isJson);
            && c.current == (if b.current == Some(g) then None else b.current)
            && |c.generations| == |b.generations| && !c.generations[g].channel.connected
            && forall i | 0 <= i < |b.generations| && i != g :: c.generations[i] == b.generations[i]
  {
  }

  /** A response over the limit is not written, and ends the server's side. */
  lemma OversizedAnswer(s: System, response: Bytes, isJson: Bytes -> bool)
    requires Enabled(s, Answering(response), isJson) && |response| >= MAX_FRAME + 1
    ensures var t := Step(s, Answering(response), isJson);
            !t.server.alive && t.out == s.out && t.channel == s.channel && t.server.answers == s.server.answers
  {
  }

  ghost predicate BridgeCanRun(b: Bridge, es: seq<BridgeEvent>, isJson: Bytes -> bool)
    decreases |es|
  {
    es == [] || (BridgeEnabled(b, es[0], isJson) && BridgeCanRun(BridgeStep(b, es[0], isJson), es[1..], isJson))
  }

  ghost function BridgeRun(b: Bridge, es: seq<BridgeEvent>, isJson: Bytes -> bool): Bridge
    requires BridgeCanRun(b, es, isJson)
    decreases |es|
  {
    if es == [] then b else BridgeRun(BridgeStep(b, es[0], isJson), es[1..], isJson)
  }

  /** Each generation is sound, and only the current one takes new exchanges. */
  ghost predicate AllSound(b: Bridge, isJson: Bytes -> bool) {
    && (forall g | 0 <= g < |b.generations| :: Sound(b.generations[g], isJson))
    && (b.current.Some? ==> b.current.value < |b.generations| && !b.generations[b.current.value].channel.retired)
  }

  lemma ExchangeKeepsRetired(s: System, e: Event, isJson: Bytes -> bool)
    requires Enabled(s, e, isJson)
    requires e.Reserving? || e.Sending? || e.Aborting? || e.HangingUp? || e.Finishing?
    ensures Step(s, e, isJson).channel.retired == s.channel.retired
  {
  }

  lemma SocketKeepsRetired(s: System, e: Event, isJson: Bytes -> bool)
    requires Enabled(s, e, isJson)
    requires e.Writable? || e.Data? || e.ConnectionFails? || e.SocketDies? || e.ShuttingDown?
    ensures Step(s, e, isJson).channel.retired == s.channel.retired
  {
  }

  /** Only a newer connection retires a generation. */
  lemma RetiresOnlyWhenReplaced(s: System, e: Event, isJson: Bytes -> bool)
    requires Enabled(s, e, isJson) && !e.Retiring?
    ensures Step(s, e, isJson).channel.retired == s.channel.retired
  {
    match e
    case Received(_) =>
    case Answering(_) =>
    case ServerStops =>
    case Reserving(_) => ExchangeKeepsRetired(s, e, isJson);
    case Sending(_, _, _) => ExchangeKeepsRetired(s, e, isJson);
    case Aborting(_, _) => ExchangeKeepsRetired(s, e, isJson);
    case HangingUp(_, _) => ExchangeKeepsRetired(s, e, isJson);
    case Finishing(_) => ExchangeKeepsRetired(s, e, isJson);
    case Writable(_) => SocketKeepsRetired(s, e, isJson);
    case Data(_) => SocketKeepsRetired(s, e, isJson);
    case ConnectionFails => SocketKeepsRetired(s, e, isJson);
    case SocketDies => SocketKeepsRetired(s, e, isJson);
    case ShuttingDown => SocketKeepsRetired(s, e, isJson);
  }

  lemma ReplaceGeneration(b: Bridge, g: nat, s: System, isJson: Bytes -> bool)
    requires AllSound(b, isJson) && g < |b.generations| && Sound(s, isJson)
    ensures var gs := b.generations[g := s]; forall i | 0 <= i < |gs| :: Sound(gs[i], isJson)
  {
  }

  lemma ConnectingSound(b: Bridge, isJson: Bytes -> bool)
    requires AllSound(b, isJson)
    ensures AllSound(BridgeStep(b, Connecting, isJson), isJson)
  {
    if b.current.Some? {
      var previous := b.generations[b.current.value];
      StepSound(previous, Retiring, isJson);
      ReplaceGeneration(b, b.current.value, Step(previous, Retiring, isJson), isJson);
      ConnectedSound(previous.channel.nextId, isJson);
    } else {
      ConnectedSound(1, isJson);
    }
  }

  lemma BridgeStepSound(b: Bridge, e: BridgeEvent, isJson: Bytes -> bool)
    requires AllSound(b, isJson) && BridgeEnabled(b, e, isJson)
    ensures AllSound(BridgeStep(b, e, isJson), isJson)
  {
    match e
    case Connecting => ConnectingSound(b, isJson);
    case Happening(g, e) =>
      StepSound(b.generations[g], e, isJson);
      RetiresOnlyWhenReplaced(b.generations[g], e, isJson);
      ReplaceGeneration(b, g, Step(b.generations[g], e, isJson), isJson);
    case Closing(g) =>
      StepSound(b.generations[g], ConnectionFails, isJson);
      RetiresOnlyWhenReplaced(b.generations[g], ConnectionFails, isJson);
      ReplaceGeneration(b, g, Step(b.generations[g], ConnectionFails, isJson), isJson);
  }

  /** Over every interleaving of connections, exchanges, aborts, back-pressure, splits
      of both streams, failures and server behaviour, every generation stays sound. */
  lemma {:induction false} BridgeRunSound(b: Bridge, es: seq<BridgeEvent>, isJson: Bytes -> bool)
    requires AllSound(b, isJson) && BridgeCanRun(b, es, isJson)
    ensures AllSound(BridgeRun(b, es, isJson), isJson)
    decreases |es|
  {
    if es != [] {
      BridgeStepSound(b, es[0], isJson);
      BridgeRunSound(BridgeStep(b, es[0], isJson), es[1..], isJson);
    }
  }

  /** From a bridge nothing has connected to: whoever is resolved, in any generation,
      is resolved with the server's answer to the very bytes it sent. */
  lemma EveryBridgeRun(es: seq<BridgeEvent>, isJson: Bytes -> bool, g: nat, id: nat, frame: Bytes)
    requires BridgeCanRun(Bridge([], None), es, isJson)
    requires g < |BridgeRun(Bridge([], None), es, isJson).generations|
    requires id in BridgeRun(Bridge([], None), es, isJson).generations[g].channel.requests
    requires Resolved(frame) in BridgeRun(Bridge([], None), es, isJson).generations[g].channel.requests[id].calls
    ensures var s := BridgeRun(Bridge([], None), es, isJson).generations[g];
            exists m :: 0 <= m < |s.server.answers| && m < |s.channel.dispatched| && m < |s.server.asked|
              && s.channel.dispatched[m] == id && s.server.answers[m] == frame
              && s.server.asked[m] == s.channel.requests[id].payload
  {
    BridgeRunSound(Bridge([], None), es, isJson);
    OwnAnswer(BridgeRun(Bridge([], None), es, isJson).generations[g], id, frame, isJson);
  }
}
