/** A run in which the bridge drops a live connection although every frame is within
    the limit. */
module BridgeDrop {
  import Wrappers
  import opened Frames
  import opened BridgeChannel
  import opened BridgeRuns

  ghost predicate Leads(s: System, es: seq<Event>, t: System, isJson: Bytes -> bool) {
    CanRun(s, es, isJson) && Run(s, es, isJson) == t
  }

  lemma First(s: System, e: Event, es: seq<Event>, t: System, isJson: Bytes -> bool)
    requires Enabled(s, e, isJson) && Leads(Step(s, e, isJson), es, t, isJson)
    ensures Leads(s, [e] + es, t, isJson)
  {
    assert ([e] + es)[0] == e && ([e] + es)[1..] == es;
  }

  lemma Only(s: System, e: Event, isJson: Bytes -> bool)
    requires Enabled(s, e, isJson)
    ensures Leads(s, [e], Step(s, e, isJson), isJson)
  {
    assert Leads(Step(s, e, isJson), [], Step(s, e, isJson), isJson);
    First(s, e, [], Step(s, e, isJson), isJson);
    assert [e] + [] == [e];
  }

  lemma {:induction false} Joined(s: System, es: seq<Event>, t: System, fs: seq<Event>, u: System,
                                  isJson: Bytes -> bool)
    requires Leads(s, es, t, isJson) && Leads(t, fs, u, isJson)
    ensures Leads(s, es + fs, u, isJson)
    decreases |es|
  {
    if es == [] {
      assert es + fs == fs;
    } else {
      Joined(Step(s, es[0], isJson), es[1..], t, fs, u, isJson);
      First(s, es[0], es[1..] + fs, u, isJson);
      assert [es[0]] + (es[1..] + fs) == es + fs;
    }
  }

  // --- Two requests ------------------------------------------------------------------

  function Asking(payload: Bytes, owner: nat): Request { Request(payload, owner, false, false, true, []) }

  /** Both requests have been written. */
  function BothSent(id: nat, p: Bytes, q: Bytes): Channel {
    Opened(id).(nextId := id + 2, open := {0, 1}, requests := map[id := Asking(p, 0), id + 1 := Asking(q, 1)],
                pending := [id, id + 1], dispatched := [id, id + 1], sent := [p, q], written := Frame(p) + Frame(q))
  }

  /** With nothing queued and room in the socket a request is written at once. */
  lemma SentAtOnce(c: Channel, owner: nat, payload: Bytes)
    requires Ready(c) && !c.writing && c.queued == [] && !c.retired && owner !in c.aborted && |payload| <= MAX_FRAME
    ensures SendAndReceive(c, owner, payload, 1) ==
            c.(nextId := c.nextId + 1, requests := c.requests[c.nextId := Asking(payload, owner)],
               pending := c.pending + [c.nextId], dispatched := c.dispatched + [c.nextId],
               sent := c.sent + [payload], written := c.written + Frame(payload))
  {
    var c1 := Enqueue(c, Asking(payload, owner)).(writing := true);
    assert c1.queued == [c.nextId] && c1.queued[1..] == [];
    assert WriteQueued(c1, 1) == WriteQueued(Dispatch(c1), 0);
  }

  lemma Sent(s: System, owner: nat, payload: Bytes, c: Channel, isJson: Bytes -> bool)
    requires Enabled(s, Sending(owner, payload, 1), isJson) && SendAndReceive(s.channel, owner, payload, 1) == c
    ensures Leads(s, [Sending(owner, payload, 1)], s.(channel := c), isJson)
  {
    Only(s, Sending(owner, payload, 1), isJson);
  }

  lemma TwoReserved(id: nat, isJson: Bytes -> bool)
    ensures Leads(Connected(id), [Reserving(0), Reserving(1)],
                  Connected(id).(channel := Opened(id).(open := {0, 1})), isJson)
  {
    var s0 := Connected(id);
    var s1 := Step(s0, Reserving(0), isJson);
    assert {} + {0} + {1} == {0, 1};
    Only(s1, Reserving(1), isJson);
    First(s0, Reserving(0), [Reserving(1)], Step(s1, Reserving(1), isJson), isJson);
  }

  lemma TwoRequests(id: nat, p: Bytes, q: Bytes, isJson: Bytes -> bool)
    requires |p| <= MAX_FRAME && |q| <= MAX_FRAME
    ensures Leads(Connected(id), [Reserving(0), Reserving(1)] + ([Sending(0, p, 1)] + [Sending(1, q, 1)]),
                  Connected(id).(channel := BothSent(id, p, q)), isJson)
  {
    var c := Opened(id).(open := {0, 1});
    SentAtOnce(c, 0, p);
    var d := SendAndReceive(c, 0, p, 1);
    SentAtOnce(d, 1, q);
    assert d.pending == [id] && d.dispatched == [id] && d.sent == [p] && [] + Frame(p) == Frame(p);
    assert SendAndReceive(d, 1, q, 1) == BothSent(id, p, q);
    var s, t := Connected(id).(channel := c), Connected(id).(channel := d);
    var u := Connected(id).(channel := BothSent(id, p, q));
    TwoReserved(id, isJson);
    Sent(s, 0, p, d, isJson);
    Sent(t, 1, q, BothSent(id, p, q), isJson);
    Joined(s, [Sending(0, p, 1)], t, [Sending(1, q, 1)], u, isJson);
    Joined(Connected(id), [Reserving(0), Reserving(1)], s, [Sending(0, p, 1)] + [Sending(1, q, 1)], u, isJson);
  }

  // --- Two answers --------------------------------------------------------------------

  lemma OneMessage(p: Bytes, isJson: Bytes -> bool)
    requires |p| <= MAX_FRAME && isJson(p)
    ensures Messages(Frame(p), isJson) == Wrappers.Some(([p], []))
  {
    NextOfFrame(p, []);
    assert Frame(p) + [] == Frame(p);
    assert Messages([], isJson) == Wrappers.Some(([], []));
    assert [p] + [] == [p];
  }

  lemma OneFed(srv: Server, p: Bytes, isJson: Bytes -> bool)
    requires srv.buffer == [] && |p| <= MAX_FRAME && isJson(p)
    ensures Feed(srv, Frame(p), isJson) == srv.(todo := [p])
  {
    OneMessage(p, isJson);
    assert [] + Frame(p) == Frame(p);
  }

  /** The server reads one frame and answers it. */
  lemma OneAnswer(s: System, p: Bytes, a: Bytes, isJson: Bytes -> bool)
    requires s.server.alive && s.server.todo == [] && s.server.buffer == [] && isJson(p) && isJson(a)
    requires |p| <= MAX_FRAME && |a| <= MAX_FRAME && s.read + |Frame(p)| <= |s.channel.written|
    requires s.channel.written[s.read..s.read + |Frame(p)|] == Frame(p)
    ensures Leads(s, [Received(|Frame(p)|), Answering(a)], Answered(s, p, a), isJson)
  {
    var s1 := s.(server := s.server.(todo := [p]), read := s.read + |Frame(p)|);
    ReceivedOne(s, p, isJson);
    AnsweredNext(s1, p, a, isJson);
    Only(s1, Answering(a), isJson);
    First(s, Received(|Frame(p)|), [Answering(a)], Answered(s, p, a), isJson);
  }

  lemma ReceivedOne(s: System, p: Bytes, isJson: Bytes -> bool)
    requires s.server.alive && s.server.todo == [] && s.server.buffer == [] && isJson(p)
    requires |p| <= MAX_FRAME && s.read + |Frame(p)| <= |s.channel.written|
    requires s.channel.written[s.read..s.read + |Frame(p)|] == Frame(p)
    ensures Enabled(s, Received(|Frame(p)|), isJson)
    ensures Step(s, Received(|Frame(p)|), isJson)
            == s.(server := s.server.(todo := [p]), read := s.read + |Frame(p)|)
  {
    OneFed(s.server, p, isJson);
  }

  function Answered(s: System, p: Bytes, a: Bytes): System {
    s.(server := s.server.(asked := s.server.asked + [p], answers := s.server.answers + [a]),
       read := s.read + |Frame(p)|, out := s.out + Frame(a))
  }

  lemma AnsweredNext(s: System, p: Bytes, a: Bytes, isJson: Bytes -> bool)
    requires s.server.alive && s.server.todo == [p] && |a| <= MAX_FRAME && isJson(a)
    ensures Enabled(s, Answering(a), isJson)
    ensures Step(s, Answering(a), isJson)
            == s.(server := s.server.(todo := [], asked := s.server.asked + [p], answers := s.server.answers + [a]),
                  out := s.out + Frame(a))
  {
    assert [p][1..] == [];
  }

  // --- The responses arrive --------------------------------------------------------------

  /** All of a maximal frame but its last byte fits the buffer and is not complete. */
  lemma AlmostWhole(c: Channel, a: Bytes, isJson: Bytes -> bool)
    requires c.tcpBuffer == [] && c.pending != [] && |a| == MAX_FRAME
    ensures var data := Frame(a)[..|Frame(a)| - 1]; HandleTcpData(c, data, isJson) == c.(tcpBuffer := data)
  {
    var data := Frame(a)[..|Frame(a)| - 1];
    assert Stream([a]) == Frame(a) by { assert [a][1..] == [] && Frame(a) + [] == Frame(a); }
    NextOfPrefix(data, [a]);
    assert [] + data == data;
  }

  /** Two requests, two answers within the limit, the first of them maximal: when the
      last byte of the first arrives together with the second, the bridge gives up the
      connection, and both callers get an error. */
  lemma MaximalFrameDrops(id: nat, p: Bytes, q: Bytes, a: Bytes, b: Bytes, isJson: Bytes -> bool)
    requires |p| <= MAX_FRAME && |q| <= MAX_FRAME && |a| == MAX_FRAME && |b| <= MAX_FRAME
    requires isJson(p) && isJson(q) && isJson(a) && isJson(b)
    ensures var es := [Reserving(0), Reserving(1), Sending(0, p, 1), Sending(1, q, 1)]
                      + ([Received(|Frame(p)|), Answering(a)] + ([Received(|Frame(q)|), Answering(b)]
                         + [Data(|Frame(a)| - 1), Data(1 + |Frame(b)|)]));
            && CanRun(Connected(id), es, isJson)
            && var c := Run(Connected(id), es, isJson).channel;
               !c.connected && c.requests.Keys == {id, id + 1}
               && c.requests[id].calls == c.requests[id + 1].calls == [Rejected]
  {
    var s1 := Connected(id).(channel := BothSent(id, p, q));
    TwoRequests(id, p, q, isJson);
    assert [Reserving(0), Reserving(1)] + ([Sending(0, p, 1)] + [Sending(1, q, 1)])
        == [Reserving(0), Reserving(1), Sending(0, p, 1), Sending(1, q, 1)];
    var s2 := s1.(server := s1.server.(asked := [p], answers := [a]), read := |Frame(p)|, out := Frame(a));
    OneAnswer(s1, p, a, isJson);
    assert [] + Frame(a) == Frame(a) && [] + [p] == [p] && [] + [a] == [a];
    var s3 := s2.(server := s2.server.(asked := [p] + [q], answers := [a] + [b]), read := |Frame(p)| + |Frame(q)|,
                  out := Frame(a) + Frame(b));
    OneAnswer(s2, q, b, isJson);
    var t := Overflows(s3, id, a, b, isJson);
    Joined(s2, [Received(|Frame(q)|), Answering(b)], s3, [Data(|Frame(a)| - 1), Data(1 + |Frame(b)|)], t, isJson);
    Joined(s1, [Received(|Frame(p)|), Answering(a)], s2, [Received(|Frame(q)|), Answering(b)]
           + [Data(|Frame(a)| - 1), Data(1 + |Frame(b)|)], t, isJson);
    Joined(Connected(id), [Reserving(0), Reserving(1)] + ([Sending(0, p, 1)] + [Sending(1, q, 1)]), s1,
           [Received(|Frame(p)|), Answering(a)] + ([Received(|Frame(q)|), Answering(b)]
           + [Data(|Frame(a)| - 1), Data(1 + |Frame(b)|)]), t, isJson);
  }

  lemma Overflows(s: System, id: nat, a: Bytes, b: Bytes, isJson: Bytes -> bool) returns (t: System)
    requires Ready(s.channel) && s.channel.tcpBuffer == [] && s.channel.pending == [id, id + 1]
    requires s.channel.queued == [] && s.channel.requests.Keys == {id, id + 1}
    requires forall x | x in s.channel.requests :: !s.channel.requests[x].settled && s.channel.requests[x].calls == []
    requires |a| == MAX_FRAME && s.heard == 0 && s.out == Frame(a) + Frame(b)
    ensures Leads(s, [Data(|Frame(a)| - 1), Data(1 + |Frame(b)|)], t, isJson)
    ensures !t.channel.connected && t.channel.requests.Keys == {id, id + 1}
    ensures forall x | x in t.channel.requests :: t.channel.requests[x].calls == [Rejected]
  {
    var n, c := |Frame(a)| - 1, s.channel;
    assert s.out[..n] == Frame(a)[..n];
    AlmostWhole(c, a, isJson);
    var s1 := Step(s, Data(n), isJson);
    assert s1.channel == c.(tcpBuffer := Frame(a)[..n]);
    t := Step(s1, Data(1 + |Frame(b)|), isJson);
    assert t.channel == FailConnection(s1.channel);
    Only(s1, Data(1 + |Frame(b)|), isJson);
    First(s, Data(n), [Data(1 + |Frame(b)|)], t, isJson);
    BothRejected(c.requests, id);
  }

  lemma BothRejected(rs: map<nat, Request>, id: nat)
    requires rs.Keys == {id, id + 1}
    requires forall x | x in rs :: !rs[x].settled && rs[x].calls == []
    ensures var rs' := RejectIds(RejectIds(rs, [id, id + 1]), []);
            rs'.Keys == {id, id + 1} && forall x | x in rs' :: rs'[x].calls == [Rejected]
  {
    assert [id, id + 1][1..] == [id + 1] && [id + 1][1..] == [];
    var rs1 := RejectOne(rs, id);
    var rs2 := RejectOne(rs1, id + 1);
    assert RejectIds(rs2, []) == rs2 && RejectIds(rs1, [id + 1]) == rs2;
  }
}
