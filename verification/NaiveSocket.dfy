/** The socket object: its fields, its loops and its handlers. Each does what `SocketQueue` says of
    it; those that are called from outside keep every invariant of the queue, lose no request and
    change no outcome. */
module NaiveSocket {
  import opened Text
  import opened Unsolicited
  import Q = SocketQueue
  import R = SocketRuns

  class NaiveSocket {
    const config: Q.Config
    var sendWorks: seq<Q.Id>
    var works: map<Q.Id, Q.SendWork>
    var currentBuffer: Text
    var connectionState: Q.ConnectionState
    var socket: Option<Q.Link>
    var alive: bool
    var sockets: nat
    var retries: seq<int>
    var now: int

    ghost function Snapshot(): Q.State
      reads this
    {
      Q.State(sendWorks, works, currentBuffer, connectionState, socket, alive, sockets, retries, now)
    }

    /** Whatever is queued is known. The handlers' pieces ask for no more. */
    ghost predicate Shaped()
      reads this
    {
      Q.Known(Snapshot())
    }

    /** Nothing unsettled is lost, only the head is on the wire, timers are in time, and the queue is
        driven. */
    ghost predicate Valid()
      reads this
    {
      R.Inv(config, Snapshot())
    }

    constructor (config: Q.Config)
      ensures Valid() && Snapshot() == Q.INITIAL && this.config == config
    {
      this.config := config;
      sendWorks, works, currentBuffer := [], map[], [];
      connectionState, socket, alive := Q.Disconnected, None, true;
      sockets, retries, now := 0, [], 0;
    }

    method Send(request: Q.Request, id: Q.Id)
      requires Valid() && id !in works
      modifies this
      ensures Snapshot() == Q.Send(config, old(Snapshot()), request, id)
      ensures Valid() && R.Later(old(Snapshot()), Snapshot()) && works.Keys == old(works).Keys + {id}
      ensures R.Carries(works[id], request) && works[id].createdAt == now && alive
    {
      R.StepKeeps(config, Snapshot(), R.SendCalled(request, id));
      R.SendKeeps(config, Snapshot(), request, id);
      R.SendCarries(config, Snapshot(), request, id);
      Enqueue(request, id);
    }

    method Enqueue(request: Q.Request, id: Q.Id)
      requires Shaped()
      modifies this
      ensures Shaped() && Snapshot() == Q.Send(config, old(Snapshot()), request, id)
    {
      alive := true;
      works := works[id := Q.NewWork(request, now)];
      if request.urgent {
        var at := if sendWorks != [] && works[sendWorks[0]].written then 1 else 0;
        sendWorks := sendWorks[..at] + [id] + sendWorks[at..];
      } else {
        sendWorks := sendWorks + [id];
      }
      if |sendWorks| == 1 {
        DoNextSendWork();
      }
    }

    /** Every request there was is settled, and nothing is left to reconnect for. */
    method Disconnect()
      requires Valid()
      modifies this
      ensures Snapshot() == Q.Disconnect(old(Snapshot()))
      ensures Valid() && R.Later(old(Snapshot()), Snapshot())
      ensures sendWorks == [] && (forall id <- works :: Q.Settled(works[id])) && !alive && connectionState == Q.Disconnected
    {
      R.StepKeeps(config, Snapshot(), R.DisconnectCalled);
      alive := false;
      DoDisconnect();
      FailAllPendingWork();
    }

    /** Every request there was is settled; only a socket that consumes pushed data reconnects. */
    method Reset()
      requires Valid()
      modifies this
      ensures Snapshot() == Q.Reset(config, old(Snapshot()))
      ensures Valid() && R.Later(old(Snapshot()), Snapshot())
      ensures sendWorks == [] && (forall id <- works :: Q.Settled(works[id])) && connectionState == Q.Disconnected
      ensures |retries| > |old(retries)| <==> config.consumer.Some? && config.retryInterval >= 0
    {
      R.StepKeeps(config, Snapshot(), R.ResetCalled);
      FailAllPendingWork();
      RetryToConnect();
    }

    method Connect()
      requires Shaped()
      modifies this
      ensures Shaped() && Snapshot() == Q.Connect(config, old(Snapshot()))
      ensures connectionState == Q.Connecting || (sendWorks == [] && forall id <- old(sendWorks) :: Q.Settled(works[id]))
      ensures R.Core(old(Snapshot())) && old(connectionState) == Q.Disconnected ==>
        R.Core(Snapshot()) && R.Later(old(Snapshot()), Snapshot())
    {
      if R.Core(Snapshot()) && connectionState == Q.Disconnected {
        R.ConnectKeeps(config, Snapshot());
      }
      connectionState := Q.Connecting;
      if config.openThrows {
        FailAllPendingWork();
        connectionState := Q.Disconnected;
        socket := None;
      } else {
        socket := Some(Q.Link(sockets, false, []));
        sockets := sockets + 1;
      }
    }

    method FailAllPendingWork()
      requires Shaped()
      modifies this
      ensures Shaped() && Snapshot() == Q.FailAll(old(Snapshot()))
      ensures forall id <- old(sendWorks) :: Q.Settled(works[id]) && works[id].deadline.None?
    {
      var failed := sendWorks;
      sendWorks := [];
      for i := 0 to |failed|
        invariant works == Q.Rejecting(old(works), failed[..i])
        invariant Snapshot() == old(Snapshot()).(queue := [], works := works)
      {
        Q.RejectingMore(old(works), failed, i);
        works := works[failed[i] := Q.Retire(works[failed[i]], Q.Rejected)];
      }
      assert failed[..|failed|] == failed;
    }

    method DoDisconnect()
      requires Shaped()
      modifies this
      ensures Shaped() && Snapshot() == Q.DoDisconnect(old(Snapshot()))
      ensures forall id <- sendWorks :: !works[id].written
    {
      currentBuffer := [];
      for i := 0 to |sendWorks|
        invariant Snapshot() == old(Snapshot()).(buffer := [], works := works)
        invariant works == Q.Unwriting(old(works), sendWorks[..i])
      {
        Q.UnwritingMore(old(works), sendWorks, i);
        works := works[sendWorks[i] := works[sendWorks[i]].(written := false)];
      }
      assert sendWorks[..|sendWorks|] == sendWorks;
      connectionState := Q.Disconnected;
      socket := None;
    }

    method RetryToConnect()
      requires Shaped()
      modifies this
      ensures Shaped() && Snapshot() == Q.RetryToConnect(config, old(Snapshot()))
      ensures connectionState == Q.Disconnected && sendWorks == old(sendWorks) && forall id <- sendWorks :: !works[id].written
      ensures R.Core(old(Snapshot())) ==> R.Core(Snapshot()) && R.Later(old(Snapshot()), Snapshot())
      ensures |sendWorks| > 0 && config.retryInterval >= 0 ==> |retries| > 0
    {
      if R.Core(Snapshot()) {
        R.RetryToConnectKeeps(config, Snapshot());
      }
      DoDisconnect();
      if |sendWorks| == 0 && config.consumer.None? {
        return;
      }
      if config.retryInterval < 0 {
        return;
      }
      retries := retries + [now + config.retryInterval];
    }

    /** The reconnect timer. */
    method RetryFires()
      requires Valid() && R.Enabled(Snapshot(), R.RetryFired)
      modifies this
      ensures Snapshot() == Q.RetryFires(config, old(Snapshot()))
      ensures Valid() && R.Later(old(Snapshot()), Snapshot())
      ensures old(alive) ==> connectionState != Q.Disconnected || sendWorks == []
    {
      R.StepKeeps(config, Snapshot(), R.RetryFired);
      retries := retries[1..];
      if alive && connectionState == Q.Disconnected {
        Connect();
      }
    }

    method OnConnect(listener: seq<Q.Sending>)
      requires Valid() && R.Enabled(Snapshot(), R.SocketConnected(listener))
      modifies this
      ensures Snapshot() == Q.OnConnect(config, old(Snapshot()), listener)
      ensures Valid() && R.Later(old(Snapshot()), Snapshot())
    {
      R.StepKeeps(config, Snapshot(), R.SocketConnected(listener));
      connectionState := Q.Connected;
      ghost var notified := Q.SendAll(config, Snapshot(), listener);
      for i := 0 to |listener|
        invariant Shaped() && Q.SendAll(config, Snapshot(), listener[i..]) == notified
      {
        assert listener[i..][1..] == listener[i + 1..];
        Enqueue(listener[i].request, listener[i].id);
      }
      DoNextSendWork();
    }

    /** Nothing queued is lost, and a reconnect is on its way if anything is and reconnecting is on. */
    method OnClose()
      requires Valid() && socket.Some?
      modifies this
      ensures Snapshot() == Q.OnClose(config, old(Snapshot()))
      ensures Valid() && R.Later(old(Snapshot()), Snapshot())
      ensures retries == old(retries)
        + if (|sendWorks| > 0 || config.consumer.Some?) && config.retryInterval >= 0 && alive then [now + config.retryInterval] else []
      ensures sendWorks == old(sendWorks) && connectionState == Q.Disconnected
      ensures |sendWorks| > 0 ==> (|retries| > 0 <==> config.retryInterval >= 0)
    {
      R.StepKeeps(config, Snapshot(), R.SocketClosed);
      if alive {
        RetryToConnect();
      }
      assert |retries| > 0 ==> now <= retries[0];
    }

    method OnData(chunk: Text)
      requires Valid() && connectionState == Q.Connected
      modifies this
      ensures Snapshot() == Q.OnData(config, old(Snapshot()), chunk)
      ensures Valid() && R.Later(old(Snapshot()), Snapshot())
      ensures (|sendWorks| > 0 && works[sendWorks[0]].expectResponse) || R.Consumed(config, currentBuffer)
    {
      R.DataIsConsumed(config, Snapshot(), chunk);
      R.StepKeeps(config, Snapshot(), R.DataArrived(chunk));
      assert R.Step(config, Snapshot(), R.DataArrived(chunk)) == Q.OnData(config, Snapshot(), chunk);
      assert Shaped();
      hide R.Inv, R.Later, R.Enabled, R.Step, R.Consumed, Q.Answered, Q.ConsumeUnsolicited, Q.Claim;
      currentBuffer := currentBuffer + chunk;
      if |sendWorks| == 0 || !works[sendWorks[0]].expectResponse {
        ConsumeUnsolicitedData();
        return;
      }
      var length := Q.Claim(works[sendWorks[0]].fulfill, currentBuffer);
      if length <= 0 {
        return;
      }
      AnswerHead(length);
      if |currentBuffer| > 0 && !(|sendWorks| > 0 && works[sendWorks[0]].expectResponse) {
        ConsumeUnsolicitedData();
      }
    }

    /** The head has its reply, of `length` characters, and leaves the queue. */
    method AnswerHead(length: nat)
      requires Shaped() && |sendWorks| > 0
      modifies this
      ensures Shaped() && Snapshot() == Q.Answered(config, old(Snapshot()), length)
    {
      hide Q.DoNext, Q.Retire;
      var id, cut := sendWorks[0], Min(length, |currentBuffer|);
      works := works[id := Q.Retire(works[id], Q.Resolved(currentBuffer[..cut]))];
      currentBuffer := currentBuffer[cut..];
      sendWorks := sendWorks[1..];
      DoNextSendWork();
    }

    method ConsumeUnsolicitedData()
      requires Shaped()
      modifies this
      ensures Shaped() && Snapshot() == Q.ConsumeUnsolicited(config, old(Snapshot()))
      ensures R.Consumed(config, currentBuffer)
    {
      R.ConsumedIs(config, Snapshot());
      if config.consumer.None? {
        currentBuffer := [];
        return;
      }
      var consume := config.consumer.value;
      while |currentBuffer| > 0
        invariant Snapshot() == old(Snapshot()).(buffer := currentBuffer)
        invariant Drain(consume, currentBuffer).rest == Drain(consume, old(currentBuffer)).rest
        decreases |currentBuffer|
      {
        var answer := consume(currentBuffer);
        if answer.Threw? {
          currentBuffer := [];
          return;
        }
        if answer.length <= 0 {
          return;
        }
        currentBuffer := currentBuffer[Min(answer.length, |currentBuffer|)..];
      }
    }

    method DoNextSendWork()
      requires Shaped()
      modifies this
      ensures Shaped() && Snapshot() == Q.DoNext(config, old(Snapshot()))
    {
      if connectionState == Q.Connecting {
        return;
      }
      if socket.None? || connectionState != Q.Connected {
        Connect();
        return;
      }
      if socket.value.ended {
        DoDisconnect();
        Connect();
        return;
      }
      DropSettled();
      if |sendWorks| == 0 || works[sendWorks[0]].written {
        return;
      }
      WriteFirst();
    }

    method WriteFirst()
      requires Shaped() && |sendWorks| > 0 && socket.Some?
      modifies this
      ensures Shaped() && Snapshot() == Q.WriteHead(old(Snapshot()))
    {
      var first := sendWorks[0];
      works := works[first := Q.MarkWritten(works[first], now)];
      socket := Some(socket.value.(sent := socket.value.sent + [first]));
    }

    /** Drops the works their timeout already settled. */
    method DropSettled()
      requires Shaped()
      modifies this
      ensures Shaped() && Snapshot() == Q.DropSettled(old(Snapshot()))
    {
      ghost var before, k := sendWorks, 0;
      while |sendWorks| > 0 && Q.Settled(works[sendWorks[0]])
        invariant k <= |before| && sendWorks == before[k..]
        invariant Snapshot() == old(Snapshot()).(queue := sendWorks)
        invariant Q.FirstUnsettled(before, works, k) == Q.FirstUnsettled(before, works, 0)
        decreases |sendWorks|
      {
        assert sendWorks[0] == before[k];
        sendWorks, k := sendWorks[1..], k + 1;
      }
    }

    /** The callback of `socket.write`. */
    method OnWritten(id: Q.Id, result: Q.WriteResult)
      requires Valid() && R.Enabled(Snapshot(), R.WriteReturned(id, result))
      modifies this
      ensures Snapshot() == Q.OnWritten(config, old(Snapshot()), id, result)
      ensures Valid() && R.Later(old(Snapshot()), Snapshot())
    {
      R.StepKeeps(config, Snapshot(), R.WriteReturned(id, result));
      assert Q.Known(Snapshot());
      hide R.Inv, R.Later, Q.DoDisconnect, Q.Connect, Q.DoNext, Q.RetryToConnect;
      if result.Failed? {
        OnWriteFailed(id, result.nothingSent);
        return;
      }
      var isHead := |sendWorks| > 0 && sendWorks[0] == id;
      if works[id].expectResponse {
        return;
      }
      works := works[id := Q.Retire(works[id], Q.Resolved([]))];
      if isHead {
        sendWorks := sendWorks[1..];
        DoNextSendWork();
      }
    }

    method OnWriteFailed(id: Q.Id, nothingSent: bool)
      requires Shaped() && id in works
      modifies this
      ensures Shaped() && Snapshot() == Q.OnWritten(config, old(Snapshot()), id, Q.Failed(nothingSent))
    {
      hide Q.Connect, Q.RetryToConnect;
      var work := works[id];
      var isHead := |sendWorks| > 0 && sendWorks[0] == id;
      if nothingSent && !work.resent && isHead && alive {
        works := works[id := work.(resent := true)];
        DoDisconnect();
        Connect();
        return;
      }
      if isHead {
        sendWorks := sendWorks[1..];
      }
      works := works[id := Q.Retire(work, Q.Rejected)];
      RetryToConnect();
    }

    /** The timer armed by `armTimeout`: the request is settled where it stands, so a reply that comes
        late is still its own. */
    method TimerFires(id: Q.Id)
      requires Valid() && R.Enabled(Snapshot(), R.TimerFired(id))
      modifies this
      ensures Snapshot() == Q.TimerFires(old(Snapshot()), id)
      ensures Valid() && R.Later(old(Snapshot()), Snapshot())
      ensures works[id] == old(works)[id].(outcome := Q.Rejected, deadline := None) && works == old(works)[id := works[id]]
      ensures sendWorks == old(sendWorks)
    {
      R.StepKeeps(config, Snapshot(), R.TimerFired(id));
      works := works[id := Q.Retire(works[id], Q.Rejected)];
    }
  }
}
