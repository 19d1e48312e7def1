/** The bridge channel as its event handlers change it, step by step. Each handler is
    proved to have the effect BridgeChannel gives it. */
module BridgeSocket {
  import opened Frames
  import opened BridgeChannel

  class SocketChannel {
    var connected: bool
    var destroyed: bool
    var ended: bool
    var retired: bool
    var tcpBuffer: Bytes
    var pendingQueue: seq<nat>
    var writeQueue: seq<nat>
    var writing: bool
    var nextRequestId: nat
    var admittedHttpRequests: nat
    var requests: map<nat, Request>
    /** The exchanges whose release has not run, and those whose signal has fired. */
    var unreleased: set<nat>
    var aborted: set<nat>
    /** What the socket has been given. */
    ghost var dispatched: seq<nat>
    ghost var sent: seq<Bytes>
    ghost var written: Bytes

    ghost function View(): Channel
      reads this
    {
      Channel(connected, destroyed, ended, retired, tcpBuffer, pendingQueue, writeQueue, writing,
              nextRequestId, requests, unreleased, aborted, dispatched, sent, written)
    }

    ghost predicate Valid()
      reads this
    {
      admittedHttpRequests == |unreleased|
    }

    constructor (nextId: nat)
      ensures Valid() && View() == Opened(nextId)
    {
      connected, destroyed, ended, retired := true, false, false, false;
      tcpBuffer, pendingQueue, writeQueue, writing := [], [], [], false;
      nextRequestId, admittedHttpRequests := nextId, 0;
      requests, unreleased, aborted := map[], {}, {};
      dispatched, sent, written := [], [], [];
    }

    method SettleReject(id: nat)
      modifies this`requests
      ensures requests == RejectOne(old(requests), id)
    {
      if id !in requests { return; }
      var request := requests[id].(listening := false);
      if !request.settled {
        request := request.(settled := true, calls := request.calls + [Rejected]);
      }
      requests := requests[id := request];
    }

    /** Both queues are emptied, oldest first. */
    method RejectPending()
      modifies this`requests, this`pendingQueue, this`writeQueue, this`writing
      ensures View() == BridgeChannel.RejectPending(old(View()))
    {
      while pendingQueue != []
        invariant RejectIds(RejectIds(requests, pendingQueue), writeQueue)
                  == BridgeChannel.RejectPending(old(View())).requests
        invariant writeQueue == old(writeQueue)
        decreases |pendingQueue|
      {
        SettleReject(pendingQueue[0]);
        pendingQueue := pendingQueue[1..];
      }
      while writeQueue != []
        invariant RejectIds(requests, writeQueue) == BridgeChannel.RejectPending(old(View())).requests
        invariant pendingQueue == []
        decreases |writeQueue|
      {
        SettleReject(writeQueue[0]);
        writeQueue := writeQueue[1..];
      }
      writing := false;
    }

    method CloseRetiredChannelIfDrained()
      requires Valid()
      modifies this`ended
      ensures View() == CloseRetiredIfDrained(old(View()))
    {
      if !retired || admittedHttpRequests > 0 || |pendingQueue| > 0 || |writeQueue| > 0 || writing { return; }
      assert unreleased == {};
      if connected && !destroyed { ended := true; }
    }

    method FailConnection()
      modifies this
      ensures View() == BridgeChannel.FailConnection(old(View()))
      ensures admittedHttpRequests == old(admittedHttpRequests)
    {
      if !connected { return; }
      connected, tcpBuffer := false, [];
      RejectPending();
      destroyed := true;
    }

    /** `room` writes are accepted before the socket asks to wait. */
    method PumpWrites(room: nat)
      requires Valid()
      modifies this
      ensures Valid() && View() == BridgeChannel.PumpWrites(old(View()), room)
    {
      if writing || writeQueue == [] { return; }
      if !connected || destroyed {
        RejectPending();
        return;
      }
      writing := true;
      WriteQueued(room);
    }

    method WriteQueued(room: nat)
      requires Valid()
      modifies this
      ensures Valid() && View() == BridgeChannel.WriteQueued(old(View()), room)
    {
      var accepted := 0;
      while writeQueue != []
        invariant accepted <= room && Valid()
        invariant BridgeChannel.WriteQueued(View(), room - accepted) == BridgeChannel.WriteQueued(old(View()), room)
        decreases |writeQueue|
      {
        DispatchOne();
        if accepted == room { return; }
        accepted := accepted + 1;
      }
      writing := false;
      CloseRetiredChannelIfDrained();
    }

    method DispatchOne()
      requires Valid() && writeQueue != []
      modifies this
      ensures Valid() && View() == Dispatch(old(View()))
    {
      var id := writeQueue[0];
      writeQueue := writeQueue[1..];
      pendingQueue := pendingQueue + [id];
      ghost var payload := if id in requests then requests[id].payload else [];
      dispatched := dispatched + [id];
      sent := sent + [payload];
      written := written + Frame(payload);
    }

    method OnWritable(room: nat)
      requires Valid()
      modifies this
      ensures Valid() && View() == BridgeChannel.OnWritable(old(View()), room)
    {
      if !connected { return; }
      writing := false;
      PumpWrites(room);
      CloseRetiredChannelIfDrained();
    }

    method HandleTcpData(data: Bytes, isJson: Bytes -> bool)
      requires Valid()
      modifies this
      ensures Valid() && View() == BridgeChannel.HandleTcpData(old(View()), data, isJson)
    {
      if |tcpBuffer| + |data| > MAX_FRAME + HEADER_SIZE {
        FailConnection();
        return;
      }
      tcpBuffer := tcpBuffer + data;
      DrainFrames(isJson);
    }

    method DrainFrames(isJson: Bytes -> bool)
      requires Valid()
      modifies this
      ensures Valid() && View() == BridgeChannel.DrainFrames(old(View()), isJson)
    {
      while pendingQueue != []
        invariant Valid()
        invariant BridgeChannel.DrainFrames(View(), isJson) == BridgeChannel.DrainFrames(old(View()), isJson)
        decreases |pendingQueue|
      {
        var front := Next(tcpBuffer);
        if front.Incomplete? { return; }
        if front.TooLarge? || !isJson(front.json) {
          FailConnection();
          return;
        }
        TakeFrame(front.json, front.rest);
      }
      if |tcpBuffer| > 0 { FailConnection(); }
    }

    /** The oldest pending request is taken off and settled, unless it was canceled. */
    method TakeFrame(frame: Bytes, rest: Bytes)
      requires Valid() && pendingQueue != []
      modifies this
      ensures Valid() && View() == Answer(old(View()), frame, rest)
    {
      tcpBuffer := rest;
      var id := pendingQueue[0];
      pendingQueue := pendingQueue[1..];
      if id in requests {
        var request := requests[id].(listening := false);
        if !request.canceled && !request.settled {
          request := request.(settled := true, calls := request.calls + [Resolved(frame)]);
        }
        requests := requests[id := request];
      }
      CloseRetiredChannelIfDrained();
    }

    /** Refused, with nothing changed, when oversized or without a connection. */
    method SendAndReceive(owner: nat, payload: Bytes, room: nat) returns (accepted: bool)
      requires Valid()
      modifies this
      ensures Valid() && View() == BridgeChannel.SendAndReceive(old(View()), owner, payload, room)
      ensures accepted <==> |payload| <= MAX_FRAME && Ready(old(View()))
    {
      if |payload| > MAX_FRAME { return false; }
      if !connected || destroyed { return false; }
      var id := nextRequestId;
      nextRequestId := nextRequestId + 1;
      var request := Request(payload, owner, false, false, true, []);
      if owner in aborted {
        requests := requests[id := request.(canceled := true)];
        SettleReject(id);
        return true;
      }
      requests := requests[id := request];
      writeQueue := writeQueue + [id];
      assert View() == Enqueue(old(View()), request);
      PumpWrites(room);
      return true;
    }

    method OnAbort(id: nat)
      requires Valid() && id in requests
      modifies this
      ensures Valid() && View() == BridgeChannel.OnAbort(old(View()), id)
    {
      requests := requests[id := requests[id].(canceled := true)];
      if id in writeQueue {
        writeQueue := WithoutId(writeQueue, id);
        SettleReject(id);
        CloseRetiredChannelIfDrained();
        return;
      }
      var request := requests[id].(listening := false);
      if !request.settled {
        request := request.(settled := true, calls := request.calls + [Rejected]);
      }
      requests := requests[id := request];
    }

    method ReserveHttpRequest(owner: nat) returns (admitted: bool)
      requires Valid() && owner !in unreleased
      modifies this
      ensures Valid() && View() == Reserve(old(View()), owner)
      ensures admitted <==> owner in unreleased
    {
      if !connected || destroyed { return false; }
      if admittedHttpRequests >= MAX_PENDING_REQUESTS { return false; }
      admittedHttpRequests := admittedHttpRequests + 1;
      unreleased := unreleased + {owner};
      return true;
    }

    method Release(owner: nat)
      requires Valid()
      modifies this
      ensures Valid() && View() == BridgeChannel.Release(old(View()), owner)
    {
      if owner !in unreleased { return; }
      unreleased := unreleased - {owner};
      admittedHttpRequests := admittedHttpRequests - 1;
      CloseRetiredChannelIfDrained();
    }
  }
}
