/** One generation of the HTTP-to-TCP bridge: a FIFO of requests over one socket,
    without request ids on the wire. */
module BridgeChannel {
  import opened Frames

  const MAX_PENDING_REQUESTS := 16

  datatype Outcome = Resolved(frame: Bytes) | Rejected

  /** `calls` lists the promise callbacks that have run, `listening` says whether the
      abort handler is attached; `owner` is the HTTP exchange that made the request. */
  datatype Request = Request(payload: Bytes, owner: nat, canceled: bool, settled: bool,
                             listening: bool, calls: seq<Outcome>)

  /** `open` are the exchanges admitted and not released, `aborted` those whose signal
      has fired. `dispatched` lists the ids and `sent` the payloads given to the socket,
      `written` the bytes. */
  datatype Channel = Channel(
    connected: bool, destroyed: bool, ended: bool, retired: bool,
    tcpBuffer: Bytes, pending: seq<nat>, queued: seq<nat>, writing: bool, nextId: nat,
    requests: map<nat, Request>, open: set<nat>, aborted: set<nat>,
    dispatched: seq<nat>, sent: seq<Bytes>, written: Bytes)

  function Opened(nextId: nat): Channel {
    Channel(true, false, false, false, [], [], [], false, nextId, map[], {}, {}, [], [], [])
  }

  // --- Settling ------------------------------------------------------------------

  function Rejecting(r: Request): Request {
    if r.settled then r.(listening := false)
    else r.(listening := false, settled := true, calls := r.calls + [Rejected])
  }

  function Resolving(r: Request, frame: Bytes): Request {
    if r.settled then r
    else r.(listening := false, settled := true, calls := r.calls + [Resolved(frame)])
  }

  function RejectOne(rs: map<nat, Request>, id: nat): map<nat, Request> {
    if id in rs then rs[id := Rejecting(rs[id])] else rs
  }

  function RejectIds(rs: map<nat, Request>, ids: seq<nat>): map<nat, Request>
    decreases |ids|
  {
    if ids == [] then rs else RejectIds(RejectOne(rs, ids[0]), ids[1..])
  }

  function RejectPending(c: Channel): Channel {
    c.(requests := RejectIds(RejectIds(c.requests, c.pending), c.queued), pending := [], queued := [], writing := false)
  }

  // --- Connection ------------------------------------------------------------------

  function Ready(c: Channel): bool { c.connected && !c.destroyed }

  predicate Drained(c: Channel) {
    c.open == {} && c.pending == [] && c.queued == [] && !c.writing
  }

  function CloseRetiredIfDrained(c: Channel): Channel {
    if c.retired && Drained(c) && Ready(c) then c.(ended := true) else c
  }

  function FailConnection(c: Channel): Channel {
    if !c.connected then c
    else RejectPending(c.(connected := false, tcpBuffer := [])).(destroyed := true)
  }

  // --- Writing -----------------------------------------------------------------------

  function Payload(c: Channel, id: nat): Bytes {
    if id in c.requests then c.requests[id].payload else []
  }

  function Dispatch(c: Channel): Channel
    requires c.queued != []
  {
    var id := c.queued[0];
    c.(queued := c.queued[1..], pending := c.pending + [id],
       dispatched := c.dispatched + [id], sent := c.sent + [Payload(c, id)],
      written := c.written + Frame(Payload(c, id)))
  }

  /** `room` writes are accepted before one returns false. */
  function WriteQueued(c: Channel, room: nat): (c': Channel)
    ensures c'.retired == c.retired
    decreases |c.queued|
  {
    if c.queued == [] then CloseRetiredIfDrained(c.(writing := false))
    else if room == 0 then Dispatch(c)
    else WriteQueued(Dispatch(c), room - 1)
  }

  function PumpWrites(c: Channel, room: nat): (c': Channel)
    ensures c'.retired == c.retired
  {
    if c.writing || c.queued == [] then c
    else if !Ready(c) then RejectPending(c)
    else WriteQueued(c.(writing := true), room)
  }

  /** The socket's drain event, for which a refused write waits. */
  function OnWritable(c: Channel, room: nat): Channel {
    if !c.connected then c else CloseRetiredIfDrained(PumpWrites(c.(writing := false), room))
  }

  // --- Reading ------------------------------------------------------------------------

  /** The oldest dispatched request takes the frame, unless it was canceled. */
  function Answer(c: Channel, frame: Bytes, rest: Bytes): Channel
    requires c.pending != []
  {
    CloseRetiredIfDrained(c.(tcpBuffer := rest, pending := c.pending[1..],
                             requests := TakeAnswer(c.requests, c.pending[0], frame)))
  }

  function TakeAnswer(rs: map<nat, Request>, id: nat, frame: Bytes): map<nat, Request> {
    if id !in rs then rs
    else
      var r := rs[id].(listening := false);
      rs[id := if r.canceled then r else Resolving(r, frame)]
  }

  function DrainFrames(c: Channel, isJson: Bytes -> bool): (c': Channel)
    ensures c'.retired == c.retired
    decreases |c.pending|
  {
    if c.pending == [] then if |c.tcpBuffer| > 0 then FailConnection(c) else c
    else
      match Next(c.tcpBuffer)
      case Incomplete => c
      case TooLarge => FailConnection(c)
      case Whole(frame, rest) =>
        if !isJson(frame) then FailConnection(c) else DrainFrames(Answer(c, frame, rest), isJson)
  }

  function HandleTcpData(c: Channel, data: Bytes, isJson: Bytes -> bool): Channel {
    if |c.tcpBuffer| + |data| > MAX_FRAME + HEADER_SIZE then FailConnection(c)
    else DrainFrames(c.(tcpBuffer := c.tcpBuffer + data), isJson)
  }

  // --- Requests and exchanges --------------------------------------------------------------

  /** A new request gets the next id; one already canceled is never queued. */
  function Enqueue(c: Channel, r: Request): Channel {
    c.(nextId := c.nextId + 1, requests := c.requests[c.nextId := r],
       queued := if r.settled then c.queued else c.queued + [c.nextId])
  }

  function SendAndReceive(c: Channel, owner: nat, payload: Bytes, room: nat): Channel {
    var r := Request(payload, owner, false, false, true, []);
    if |payload| > MAX_FRAME || !Ready(c) then c
    else if owner in c.aborted then Enqueue(c, Rejecting(r.(canceled := true)))
    else PumpWrites(Enqueue(c, r), room)
  }

  function WithoutId(ids: seq<nat>, id: nat): seq<nat> {
    if ids == [] then [] else if ids[0] == id then ids[1..] else [ids[0]] + WithoutId(ids[1..], id)
  }

  /** The abort handler of request `id`, once. */
  function OnAbort(c: Channel, id: nat): (c': Channel)
    requires id in c.requests
    ensures c'.retired == c.retired
  {
    var r := c.requests[id].(canceled := true);
    var c1 := c.(requests := c.requests[id := Rejecting(r)]);
    if id in c.queued then CloseRetiredIfDrained(c1.(queued := WithoutId(c.queued, id))) else c1
  }

  predicate Listens(c: Channel, owner: nat, id: nat) {
    id in c.requests && c.requests[id].owner == owner && c.requests[id].listening
  }

  /** The exchange's abort signal fires; one request at most listens to it. */
  function Abort(c: Channel, owner: nat, id: nat): Channel {
    var c1 := c.(aborted := c.aborted + {owner});
    if owner in c.aborted then c else if Listens(c, owner, id) then OnAbort(c1, id) else c1
  }

  function Reserve(c: Channel, owner: nat): Channel {
    if !Ready(c) || |c.open| >= MAX_PENDING_REQUESTS then c else c.(open := c.open + {owner})
  }

  /** The response of an exchange has finished or closed. */
  function Release(c: Channel, owner: nat): Channel {
    if owner !in c.open then c else CloseRetiredIfDrained(c.(open := c.open - {owner}))
  }

  /** A newer connection takes over. */
  function Retire(c: Channel): Channel { CloseRetiredIfDrained(c.(retired := true)) }

  /** The bridge shuts down. */
  function Shutdown(c: Channel): Channel { RejectPending(if c.connected then c.(destroyed := true) else c) }
}
