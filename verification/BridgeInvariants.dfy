/** What every event keeps true of a bridge channel. */
module BridgeInvariants {
  import opened Frames
  import opened BridgeChannel

  type Book = map<nat, Request>

  predicate NoRepeats(ids: seq<nat>) { forall i, j | 0 <= i < j < |ids| :: ids[i] != ids[j] }

  /** Dispatch moves ids from the front of the queue; responses take them from the
      front of what is pending. */
  predicate Lined(pending: seq<nat>, queued: seq<nat>, dispatched: seq<nat>) {
    && NoRepeats(dispatched) && NoRepeats(queued)
    && (forall id | id in queued :: id !in dispatched)
    && |pending| <= |dispatched| && pending == dispatched[|dispatched| - |pending|..]
  }

  /** The bytes written are the frames of the dispatched requests' payloads. */
  predicate Recorded(rs: Book, queued: seq<nat>, dispatched: seq<nat>, sent: seq<Bytes>, written: Bytes) {
    && (forall id | id in queued :: id in rs)
    && |sent| == |dispatched|
    && (forall i | 0 <= i < |dispatched| :: dispatched[i] in rs && rs[dispatched[i]].payload == sent[i])
    && written == Stream(sent)
  }

  /** Settled exactly when one callback has run; a canceled request was rejected. */
  predicate SettledOnce(r: Request) {
    && |r.calls| == (if r.settled then 1 else 0)
    && (r.listening <==> !r.settled)
    && (r.canceled ==> r.calls == [Rejected])
    && |r.payload| <= MAX_FRAME
  }

  predicate Settling(rs: Book, nextId: nat) {
    forall id | id in rs :: id < nextId && SettledOnce(rs[id])
  }

  /** A request still waiting is in one of the queues; what is queued is waiting, and
      what is pending is waiting or canceled. */
  predicate Placed(rs: Book, pending: seq<nat>, queued: seq<nat>) {
    && (forall id | id in rs && !rs[id].settled :: id in pending || id in queued)
    && (forall id | id in queued && id in rs :: !rs[id].settled)
    && (forall id | id in pending && id in rs :: rs[id].settled ==> rs[id].canceled)
  }

  /** Exchanges make one request each, and hold their place while it waits. */
  predicate Owned(rs: Book, open: set<nat>, aborted: set<nat>) {
    && (forall id | id in rs && !rs[id].settled :: rs[id].owner in open && rs[id].owner !in aborted)
    && (forall a, b | a in rs && b in rs && a != b :: rs[a].owner != rs[b].owner)
  }

  /** Nobody has been turned away who did not cancel. */
  predicate Served(rs: Book) { forall id | id in rs && Rejected in rs[id].calls :: rs[id].canceled }

  predicate Consistent(c: Channel) {
    && Lined(c.pending, c.queued, c.dispatched)
    && Recorded(c.requests, c.queued, c.dispatched, c.sent, c.written)
    && Settling(c.requests, c.nextId)
    && Placed(c.requests, c.pending, c.queued)
    && Owned(c.requests, c.open, c.aborted)
    && |c.open| <= MAX_PENDING_REQUESTS
    && (!c.connected ==> c.pending == [] && c.queued == [] && c.tcpBuffer == [])
    && (c.ended ==> c.retired && Drained(c))
    && (Ready(c) ==> Served(c.requests))
  }

  /** How many responses have been taken off the stream. */
  function Consumed(c: Channel): int { |c.dispatched| - |c.pending| }

  /** The requests one resolves with a response, before and after. */
  ghost predicate NoneResolved(rs: Book, rs': Book) {
    && (forall id | id in rs :: id in rs' && rs'[id].payload == rs[id].payload)
    && (forall id, f | id in rs' && Resolved(f) in rs'[id].calls :: id in rs && Resolved(f) in rs[id].calls)
  }

  /** No response taken: dispatches only add, and nothing is resolved. */
  ghost predicate Keeps(c: Channel, c': Channel) {
    && c.dispatched <= c'.dispatched && c.sent <= c'.sent
    && NoneResolved(c.requests, c'.requests)
    && (Ready(c') ==> Ready(c) && c'.tcpBuffer == c.tcpBuffer && Consumed(c') == Consumed(c))
    && (c.ended ==> c'.written == c.written && c'.ended)
  }

  lemma KeepsRefl(c: Channel)
    ensures Keeps(c, c)
  {
  }

  lemma KeepsCompose(a: Channel, b: Channel, c: Channel)
    requires Keeps(a, b) && Keeps(b, c)
    ensures Keeps(a, c)
  {
  }

  // --- Rejecting ------------------------------------------------------------------

  lemma {:induction false} RejectIdsAt(rs: Book, ids: seq<nat>)
    ensures RejectIds(rs, ids).Keys == rs.Keys
    ensures forall id | id in rs :: RejectIds(rs, ids)[id] == if id in ids then Rejecting(rs[id]) else rs[id]
    decreases |ids|
  {
    if ids != [] {
      RejectIdsAt(RejectOne(rs, ids[0]), ids[1..]);
      assert ids == [ids[0]] + ids[1..];
    }
  }

  /** `rs'` is `rs` with some requests rejected. */
  predicate SomeRejected(rs: Book, rs': Book) {
    && rs'.Keys == rs.Keys
    && forall id | id in rs :: rs'[id] == rs[id] || rs'[id] == Rejecting(rs[id])
  }

  lemma SomeRejectedKeeps(rs: Book, rs': Book, nextId: nat, open: set<nat>, aborted: set<nat>)
    requires SomeRejected(rs, rs') && Settling(rs, nextId) && Owned(rs, open, aborted)
    ensures Settling(rs', nextId) && Owned(rs', open, aborted) && NoneResolved(rs, rs')
  {
  }

  /** Rejecting both queues settles every request there is. */
  lemma RejectQueues(rs: Book, pending: seq<nat>, queued: seq<nat>)
    requires Placed(rs, pending, queued)
    ensures var rs' := RejectIds(RejectIds(rs, pending), queued);
            SomeRejected(rs, rs') && forall id | id in rs' :: rs'[id].settled
  {
    RejectIdsAt(rs, pending);
    RejectIdsAt(RejectIds(rs, pending), queued);
  }

  lemma SamePayloads(rs: Book, rs': Book, dispatched: seq<nat>, sent: seq<Bytes>, written: Bytes)
    requires Recorded(rs, [], dispatched, sent, written)
    requires forall id | id in rs :: id in rs' && rs'[id].payload == rs[id].payload
    ensures Recorded(rs', [], dispatched, sent, written)
  {
  }

  lemma RejectedParts(c: Channel)
    requires Consistent(c)
    ensures var rs' := RejectIds(RejectIds(c.requests, c.pending), c.queued);
            && Lined([], [], c.dispatched) && Recorded(rs', [], c.dispatched, c.sent, c.written)
            && Settling(rs', c.nextId) && Placed(rs', [], []) && Owned(rs', c.open, c.aborted)
            && NoneResolved(c.requests, rs') && forall id | id in rs' :: rs'[id].settled
  {
    var rs' := RejectIds(RejectIds(c.requests, c.pending), c.queued);
    RejectQueues(c.requests, c.pending, c.queued);
    SomeRejectedKeeps(c.requests, rs', c.nextId, c.open, c.aborted);
    SamePayloads(c.requests, rs', c.dispatched, c.sent, c.written);
    assert c.dispatched[|c.dispatched|..] == [];
  }

  /** Everything outstanding is settled, whatever state the connection is in. */
  lemma RejectPendingOk(c: Channel)
    requires Consistent(c) && !Ready(c)
    ensures Consistent(RejectPending(c)) && Keeps(c, RejectPending(c))
    ensures forall id | id in RejectPending(c).requests :: RejectPending(c).requests[id].settled
  {
    RejectedParts(c);
  }

  lemma FailConnectionOk(c: Channel)
    requires Consistent(c)
    ensures Consistent(FailConnection(c)) && Keeps(c, FailConnection(c)) && !FailConnection(c).connected
    ensures forall id | id in FailConnection(c).requests :: FailConnection(c).requests[id].settled
  {
    if c.connected {
      FailConnectionSettles(c);
    } else {
      KeepsRefl(c);
      assert c.pending == [] && c.queued == [];
    }
  }

  lemma FailConnectionSettles(c: Channel)
    requires Consistent(c) && c.connected
    ensures var c' := FailConnection(c);
            && Consistent(c') && !c'.connected && NoneResolved(c.requests, c'.requests)
            && forall id | id in c'.requests :: c'.requests[id].settled
  {
    RejectedParts(c);
  }

  lemma CloseRetiredOk(c: Channel)
    requires Consistent(c)
    ensures Consistent(CloseRetiredIfDrained(c)) && Keeps(c, CloseRetiredIfDrained(c))
  {
  }

  // --- Writing ----------------------------------------------------------------------

  lemma DispatchOk(c: Channel)
    requires Consistent(c) && c.queued != [] && Ready(c)
    ensures Consistent(Dispatch(c))
  {
    var id, c' := c.queued[0], Dispatch(c);
    assert c.queued == [id] + c.queued[1..];
    assert id in c.queued;
    StreamSnoc(c.sent, Payload(c, id));
  }

  lemma WritingOk(c: Channel, writing: bool)
    requires Consistent(c) && (writing ==> c.queued != [])
    ensures Consistent(c.(writing := writing)) && Keeps(c, c.(writing := writing))
  {
  }

  lemma {:induction false} WriteQueuedOk(c: Channel, room: nat)
    requires Consistent(c) && Ready(c)
    ensures Consistent(WriteQueued(c, room))
    decreases |c.queued|
  {
    if c.queued == [] {
      WritingOk(c, false);
      CloseRetiredOk(c.(writing := false));
    } else {
      DispatchOk(c);
      if room > 0 { WriteQueuedOk(Dispatch(c), room - 1); }
    }
  }

  lemma {:induction false} WriteQueuedKeeps(c: Channel, room: nat)
    requires Ready(c) && !c.ended
    ensures Keeps(c, WriteQueued(c, room))
    decreases |c.queued|
  {
    if c.queued != [] && room > 0 {
      WriteQueuedKeeps(Dispatch(c), room - 1);
      KeepsCompose(c, Dispatch(c), WriteQueued(c, room));
    }
  }

  lemma PumpWritesOk(c: Channel, room: nat)
    requires Consistent(c)
    ensures Consistent(PumpWrites(c, room)) && Keeps(c, PumpWrites(c, room))
  {
    if c.writing || c.queued == [] {
    } else if !Ready(c) {
      RejectPendingOk(c);
    } else {
      WritingOk(c, true);
      WriteQueuedOk(c.(writing := true), room);
      WriteQueuedKeeps(c.(writing := true), room);
      KeepsCompose(c, c.(writing := true), PumpWrites(c, room));
    }
  }

  lemma OnWritableOk(c: Channel, room: nat)
    requires Consistent(c)
    ensures Consistent(OnWritable(c, room)) && Keeps(c, OnWritable(c, room))
  {
    if c.connected {
      var c1 := c.(writing := false);
      WritingOk(c, false);
      PumpWritesOk(c1, room);
      CloseRetiredOk(PumpWrites(c1, room));
      KeepsCompose(c, c1, PumpWrites(c1, room));
      KeepsCompose(c, PumpWrites(c1, room), OnWritable(c, room));
    }
  }

  // --- Reading ----------------------------------------------------------------------------

  /** The request whose turn it is, and no other, may be resolved with the frame. */
  ghost predicate OneAnswered(rs: Book, rs': Book, id: nat, frame: Bytes) {
    && rs'.Keys == rs.Keys && id in rs
    && (forall x | x in rs :: rs'[x].payload == rs[x].payload)
    && (forall x, f | x in rs' && Resolved(f) in rs'[x].calls :: Resolved(f) in rs[x].calls || (x == id && f == frame))
    && (!rs[id].canceled ==> rs'[id].calls == [Resolved(frame)])
  }

  lemma TakeAnswerResolves(rs: Book, nextId: nat, pending: seq<nat>, queued: seq<nat>, frame: Bytes)
    requires pending != [] && pending[0] in rs
    requires Settling(rs, nextId) && Placed(rs, pending, queued)
    ensures OneAnswered(rs, TakeAnswer(rs, pending[0], frame), pending[0], frame)
  {
    assert pending[0] in pending;
  }

  lemma TakeAnswerKeeps(c: Channel, id: nat, rest: seq<nat>, frame: Bytes)
    requires Recorded(c.requests, c.queued, c.dispatched, c.sent, c.written)
    requires Settling(c.requests, c.nextId) && Owned(c.requests, c.open, c.aborted)
    requires Placed(c.requests, c.pending, c.queued)
    requires c.pending == [id] + rest && id !in rest && id !in c.queued && id in c.requests
    ensures var rs' := TakeAnswer(c.requests, id, frame);
            && Settling(rs', c.nextId) && Placed(rs', rest, c.queued) && Owned(rs', c.open, c.aborted)
            && Recorded(rs', c.queued, c.dispatched, c.sent, c.written)
  {
  }

  lemma TakeAnswerServed(rs: Book, id: nat, frame: Bytes)
    requires Served(rs)
    ensures Served(TakeAnswer(rs, id, frame))
  {
  }

  lemma NextInLine(pending: seq<nat>, queued: seq<nat>, dispatched: seq<nat>)
    requires Lined(pending, queued, dispatched) && pending != []
    ensures pending[0] == dispatched[|dispatched| - |pending|]
    ensures pending[0] !in pending[1..] && pending[0] !in queued
    ensures pending == [pending[0]] + pending[1..]
    ensures Lined(pending[1..], queued, dispatched)
  {
    var id, n := pending[0], |dispatched| - |pending|;
    assert dispatched[n] == id;
    assert pending[1..] == dispatched[n + 1..];
    forall i | 0 <= i < |pending[1..]| ensures pending[1..][i] != id {
      assert dispatched[n + 1 + i] == pending[1..][i];
    }
  }

  lemma AnswerOk(c: Channel, frame: Bytes, rest: Bytes)
    requires Consistent(c) && c.pending != [] && c.connected
    ensures var c' := Answer(c, frame, rest);
            && Consistent(c') && c'.tcpBuffer == rest && Ready(c') == Ready(c) && c'.connected && (c.ended ==> c'.ended)
            && c'.dispatched == c.dispatched && c'.sent == c.sent && c'.written == c.written
            && Consumed(c') == Consumed(c) + 1 && Consumed(c) < |c.dispatched|
            && OneAnswered(c.requests, c'.requests, c.dispatched[Consumed(c)], frame)
  {
    AnswerTaken(c, frame, rest);
    CloseRetiredOk(c.(tcpBuffer := rest, pending := c.pending[1..],
                      requests := TakeAnswer(c.requests, c.pending[0], frame)));
  }

  lemma AnswerTaken(c: Channel, frame: Bytes, rest: Bytes)
    requires Consistent(c) && c.pending != [] && c.connected
    ensures var rs := TakeAnswer(c.requests, c.pending[0], frame);
            && Consistent(c.(tcpBuffer := rest, pending := c.pending[1..], requests := rs))
            && 0 <= Consumed(c) < |c.dispatched| && OneAnswered(c.requests, rs, c.dispatched[Consumed(c)], frame)
  {
    NextInLine(c.pending, c.queued, c.dispatched);
    assert c.pending[0] in c.dispatched;
    TakeAnswerResolves(c.requests, c.nextId, c.pending, c.queued, frame);
    TakeAnswerKeeps(c, c.pending[0], c.pending[1..], frame);
    if Ready(c) { TakeAnswerServed(c.requests, c.pending[0], frame); }
    ShorterConsistent(c, TakeAnswer(c.requests, c.pending[0], frame), rest);
  }

  lemma ShorterConsistent(c: Channel, rs: Book, rest: Bytes)
    requires Consistent(c) && c.pending != [] && c.connected
    requires Lined(c.pending[1..], c.queued, c.dispatched) && Recorded(rs, c.queued, c.dispatched, c.sent, c.written)
    requires Settling(rs, c.nextId) && Placed(rs, c.pending[1..], c.queued) && Owned(rs, c.open, c.aborted)
    requires Ready(c) ==> Served(rs)
    ensures Consistent(c.(tcpBuffer := rest, pending := c.pending[1..], requests := rs))
  {
  }

  // --- Requests and exchanges -----------------------------------------------------------

  lemma NewId(c: Channel, id: nat)
    requires Consistent(c) && id !in c.requests
    ensures id !in c.queued && id !in c.dispatched && id !in c.pending
    ensures Lined(c.pending, c.queued + [id], c.dispatched)
  {
    forall x | x in c.pending ensures x in c.dispatched { }
  }

  lemma NewRequestBook(c: Channel, id: nat, r: Request, queued: seq<nat>)
    requires Consistent(c) && id !in c.requests && id >= c.nextId && SettledOnce(r) && r.settled == r.canceled
    requires forall x | x in c.requests :: c.requests[x].owner != r.owner
    requires id !in c.queued && id !in c.dispatched && id !in c.pending
    requires if r.settled then queued == c.queued
             else r.owner in c.open && r.owner !in c.aborted && queued == c.queued + [id]
    ensures var rs := c.requests[id := r];
            && Settling(rs, id + 1) && Placed(rs, c.pending, queued) && Owned(rs, c.open, c.aborted)
            && (Served(c.requests) ==> Served(rs))
            && Recorded(rs, queued, c.dispatched, c.sent, c.written)
  {
  }

  lemma NewRequestOk(c: Channel, r: Request)
    requires Consistent(c) && SettledOnce(r) && r.settled == r.canceled
    requires forall id | id in c.requests :: c.requests[id].owner != r.owner
    requires !r.settled ==> Ready(c) && r.owner in c.open && r.owner !in c.aborted
    ensures Consistent(Enqueue(c, r)) && Keeps(c, Enqueue(c, r))
  {
    NewRequestConsistent(c, c.nextId, r);
    NewRequestKeeps(c.requests, c.nextId, r);
  }

  lemma NewRequestConsistent(c: Channel, id: nat, r: Request)
    requires Consistent(c) && SettledOnce(r) && r.settled == r.canceled && id == c.nextId
    requires forall x | x in c.requests :: c.requests[x].owner != r.owner
    requires !r.settled ==> Ready(c) && r.owner in c.open && r.owner !in c.aborted
    ensures id !in c.requests && Consistent(Enqueue(c, r))
  {
    assert id !in c.requests;
    NewId(c, id);
    NewRequestBook(c, id, r, if r.settled then c.queued else c.queued + [id]);
  }

  lemma NewRequestKeeps(rs: Book, id: nat, r: Request)
    requires id !in rs && SettledOnce(r) && r.settled == r.canceled
    ensures NoneResolved(rs, rs[id := r])
  {
  }

  /** An exchange that holds its place, or lost it by being aborted, sends its one
      request. */
  lemma SendOk(c: Channel, owner: nat, payload: Bytes, room: nat)
    requires Consistent(c) && (owner in c.open || owner in c.aborted)
    requires forall id | id in c.requests :: c.requests[id].owner != owner
    ensures Consistent(SendAndReceive(c, owner, payload, room)) && Keeps(c, SendAndReceive(c, owner, payload, room))
  {
    if |payload| <= MAX_FRAME && Ready(c) {
      var r := Request(payload, owner, false, false, true, []);
      if owner in c.aborted {
        NewRequestOk(c, Rejecting(r.(canceled := true)));
      } else {
        NewRequestOk(c, r);
        PumpWritesOk(Enqueue(c, r), room);
        KeepsCompose(c, Enqueue(c, r), PumpWrites(Enqueue(c, r), room));
      }
    } else {
      KeepsRefl(c);
    }
  }

  lemma {:induction false} WithoutIdAt(ids: seq<nat>, id: nat)
    requires NoRepeats(ids)
    ensures NoRepeats(WithoutId(ids, id))
    ensures forall x :: x in WithoutId(ids, id) <==> x in ids && x != id
  {
    if ids != [] {
      var rest := ids[1..];
      assert ids == [ids[0]] + rest;
      assert NoRepeats(rest) by { assert forall i | 0 <= i < |rest| :: rest[i] == ids[i + 1]; }
      assert ids[0] !in rest by { assert forall i | 0 <= i < |rest| :: rest[i] == ids[i + 1]; }
      WithoutIdAt(rest, id);
    }
  }

  lemma OnAbortOk(c: Channel, owner: nat, id: nat)
    requires Consistent(c) && Listens(c, owner, id) && owner !in c.aborted
    ensures var c' := OnAbort(c.(aborted := c.aborted + {owner}), id);
            Consistent(c') && Keeps(c, c')
  {
    var c1 := c.(aborted := c.aborted + {owner});
    var rs := c.requests[id := Rejecting(c.requests[id].(canceled := true))];
    var queued := if id in c.queued then WithoutId(c.queued, id) else c.queued;
    WithoutIdAt(c.queued, id);
    AbortBook(c, owner, id, rs, queued);
    var c2 := c1.(requests := rs, queued := queued);
    if id in c.queued {
      CloseRetiredOk(c2);
      KeepsCompose(c, c2, CloseRetiredIfDrained(c2));
    }
  }

  lemma AbortBook(c: Channel, owner: nat, id: nat, rs: Book, queued: seq<nat>)
    requires Consistent(c) && Listens(c, owner, id) && owner !in c.aborted
    requires rs == c.requests[id := Rejecting(c.requests[id].(canceled := true))]
    requires NoRepeats(queued) && forall x :: x in queued <==> x in c.queued && x != id
    ensures Consistent(c.(aborted := c.aborted + {owner}, requests := rs, queued := queued))
    ensures Keeps(c, c.(aborted := c.aborted + {owner}, requests := rs, queued := queued))
  {
    AbortedParts(c, owner, id, rs, queued);
  }

  lemma AbortedParts(c: Channel, owner: nat, id: nat, rs: Book, queued: seq<nat>)
    requires Consistent(c) && Listens(c, owner, id)
    requires rs == c.requests[id := Rejecting(c.requests[id].(canceled := true))]
    requires NoRepeats(queued) && forall x :: x in queued <==> x in c.queued && x != id
    ensures Lined(c.pending, queued, c.dispatched) && Recorded(rs, queued, c.dispatched, c.sent, c.written)
    ensures Settling(rs, c.nextId) && Placed(rs, c.pending, queued) && Owned(rs, c.open, c.aborted + {owner})
    ensures (Served(c.requests) ==> Served(rs)) && NoneResolved(c.requests, rs)
    ensures c.queued == [] ==> queued == []
  {
    if queued != [] { assert queued[0] in queued; }
  }

  lemma AbortOk(c: Channel, owner: nat, id: nat)
    requires Consistent(c) && ((exists x :: Listens(c, owner, x)) ==> Listens(c, owner, id))
    ensures Consistent(Abort(c, owner, id)) && Keeps(c, Abort(c, owner, id))
  {
    if owner in c.aborted {
      KeepsRefl(c);
    } else if Listens(c, owner, id) {
      OnAbortOk(c, owner, id);
    } else {
      assert forall x | x in c.requests && c.requests[x].owner == owner :: !Listens(c, owner, x);
    }
  }

  lemma AbortSettles(c: Channel, owner: nat, id: nat, x: nat)
    requires Settling(c.requests, c.nextId) && Owned(c.requests, c.open, c.aborted)
    requires ((exists x :: Listens(c, owner, x)) ==> Listens(c, owner, id))
    requires x in c.requests && c.requests[x].owner == owner
    ensures x in Abort(c, owner, id).requests && Abort(c, owner, id).requests[x].settled
  {
    assert owner in c.aborted ==> c.requests[x].settled;
    assert Listens(c, owner, id) ==> x == id;
    assert Listens(c, owner, x) <==> !c.requests[x].settled;
  }

  lemma HangUpOk(c: Channel, owner: nat, id: nat)
    requires Consistent(c) && ((exists x :: Listens(c, owner, x)) ==> Listens(c, owner, id))
    ensures Consistent(Release(Abort(c, owner, id), owner)) && Keeps(c, Release(Abort(c, owner, id), owner))
  {
    AbortOk(c, owner, id);
    AbortSettlesAll(c, owner, id);
    ReleaseOk(Abort(c, owner, id), owner);
    KeepsCompose(c, Abort(c, owner, id), Release(Abort(c, owner, id), owner));
  }

  lemma AbortSettlesAll(c: Channel, owner: nat, id: nat)
    requires Settling(c.requests, c.nextId) && Owned(c.requests, c.open, c.aborted)
    requires ((exists x :: Listens(c, owner, x)) ==> Listens(c, owner, id))
    ensures var rs := Abort(c, owner, id).requests;
            forall x | x in rs && rs[x].owner == owner :: rs[x].settled
  {
    var rs := Abort(c, owner, id).requests;
    forall x | x in rs && rs[x].owner == owner ensures rs[x].settled {
      AbortSettles(c, owner, id, x);
    }
  }

  lemma ReserveOk(c: Channel, owner: nat)
    requires Consistent(c) && !c.retired
    ensures Consistent(Reserve(c, owner)) && Keeps(c, Reserve(c, owner))
  {
  }

  lemma ReleaseOk(c: Channel, owner: nat)
    requires Consistent(c)
    requires forall id | id in c.requests && c.requests[id].owner == owner :: c.requests[id].settled
    ensures Consistent(Release(c, owner)) && Keeps(c, Release(c, owner))
  {
    if owner in c.open {
      var c1 := c.(open := c.open - {owner});
      assert |c.open - {owner}| == |c.open| - 1;
      CloseRetiredOk(c1);
      KeepsCompose(c, c1, Release(c, owner));
    }
  }

  lemma RetireOk(c: Channel)
    requires Consistent(c)
    ensures Consistent(Retire(c)) && Keeps(c, Retire(c))
  {
    CloseRetiredOk(c.(retired := true));
    KeepsCompose(c, c.(retired := true), Retire(c));
  }

  lemma ShutdownOk(c: Channel)
    requires Consistent(c)
    ensures Consistent(Shutdown(c)) && Keeps(c, Shutdown(c))
    ensures forall id | id in Shutdown(c).requests :: Shutdown(c).requests[id].settled
  {
    var c1 := if c.connected then c.(destroyed := true) else c;
    RejectPendingOk(c1);
    KeepsCompose(c, c1, Shutdown(c));
  }
}
