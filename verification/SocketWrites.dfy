/** How often a request is carried to the server. A request that was written when its connection
    dropped is written again on the next one, so the server may carry it out twice; this module
    proves for which timeouts that cannot happen. */
module SocketWrites {
  import opened Text
  import opened SocketQueue
  import opened SocketRuns

  // ---- Counting ----------------------------------------------------------------------------------

  predicate OnWire(s: State, id: Id) {
    id in s.works && s.works[id].written
  }

  /** The event puts the request on a wire. */
  predicate Writes(s: State, s': State, id: Id) {
    OnWire(s', id) && !OnWire(s, id)
  }

  /** The event tells that the last write had sent nothing, and the request is written again. */
  predicate Unsent(s: State, e: Event, id: Id)
    requires Known(s) && Enabled(s, e)
  {
    e == WriteReturned(id, Failed(true)) && !s.works[id].resent && IsHead(s, id) && s.alive
  }

  /** How often the request was written, other than in vain. */
  function Carried(c: Config, s: State, events: seq<Event>, id: Id): int
    requires Known(s) && Possible(c, s, events)
    decreases |events|
  {
    if |events| == 0 then 0
    else
      var s' := Step(c, s, events[0]);
      (if Writes(s, s', id) then 1 else 0) - (if Unsent(s, events[0], id) then 1 else 0)
      + Carried(c, s', events[1..], id)
  }

  // ---- The guard ------------------------------------------------------------------------------------

  /** The socket of a Redis connection that can be opened, with reconnecting on. */
  predicate Plain(c: Config) {
    c.consumer.None? && c.retryInterval >= 0 && !c.openThrows
  }

  /** The request times out no later than a reconnect can follow a drop. */
  predicate Guarded(c: Config, timeoutMillis: int) {
    0 < timeoutMillis <= c.retryInterval
  }

  /** Nobody shuts the socket down or resets it, and a write reports before its socket is gone. */
  predicate Orderly(s: State, e: Event)
    requires Known(s) && Enabled(s, e)
  {
    match e
    case DisconnectCalled => false
    case ResetCalled => false
    case WriteReturned(id, result) =>
      (result.Failed? || !s.works[id].expectResponse) ==> IsHead(s, id) && s.works[id].written
    case _ => true
  }

  predicate AllOrderly(c: Config, s: State, events: seq<Event>)
    requires Known(s) && Possible(c, s, events)
    decreases |events|
  {
    |events| == 0 || (Orderly(s, events[0]) && AllOrderly(c, Step(c, s, events[0]), events[1..]))
  }

  // ---- The invariant ----------------------------------------------------------------------------------

  /** A reconnect is scheduled only while the socket is down and something is queued, and only one. */
  predicate Calm(s: State) {
    |s.retries| <= 1 && (s.connection != Disconnected ==> s.retries == []) && (s.queue == [] ==> s.retries == [])
  }

  /** No reconnect comes before the request has timed out. */
  predicate TooLate(s: State, deadline: int) {
    |s.retries| > 0 && forall i :: 0 <= i < |s.retries| ==> deadline <= s.retries[i]
  }

  /** A guarded request that was written and is not settled is on the wire; or the socket is down
      and stays so until the request times out; or its write sent nothing. */
  predicate Held(s: State, id: Id)
    requires id in s.works
  {
    var w := s.works[id];
    !Settled(w) && w.deadlineStarted ==>
      && w.deadline.Some? && w.deadline.value <= s.now + w.timeoutMillis
      && (w.written || (s.connection == Disconnected && TooLate(s, w.deadline.value)) || (w.resent && s.connection != Disconnected))
  }

  predicate HeldGuarded(c: Config, s: State, id: Id) {
    id in s.works ==>
      Guarded(c, s.works[id].timeoutMillis) && Held(s, id) && (s.works[id].written ==> s.works[id].deadlineStarted)
  }

  /** How often the request may yet be written. */
  function Left(s: State, id: Id): int {
    if id !in s.works then 1
    else
      var w := s.works[id];
      if Settled(w) then 0
      else if !w.deadlineStarted then 1
      else if w.written || s.connection == Disconnected then 0
      else 1
  }

  predicate WriteInv(c: Config, s: State, id: Id) {
    Inv(c, s) && Calm(s) && HeldGuarded(c, s, id)
  }

  /** Wherever the request comes from, its timeout is guarded. */
  predicate Fits(c: Config, e: Event, id: Id) {
    match e
    case SendCalled(request, sent) => sent == id ==> Guarded(c, request.timeoutMillis)
    case SocketConnected(listener) =>
      forall i :: 0 <= i < |listener| && listener[i].id == id ==> Guarded(c, listener[i].request.timeoutMillis)
    case _ => true
  }

  /** An event takes from what is left as much as it writes. */
  predicate Spends(s: State, s': State, e: Event, id: Id)
    requires Known(s) && Enabled(s, e)
  {
    (if Writes(s, s', id) then 1 else 0) - (if Unsent(s, e, id) then 1 else 0) + Left(s', id) <= Left(s, id)
  }

  // ---- What moving on does to one request ---------------------------------------------------------------

  /** Nothing, or it is settled, or it is the head and is written. */
  ghost predicate Moves(s: State, r: State, id: Id) {
    && id in s.works && id in r.works && r.now == s.now && r.retries == s.retries
    && (r.works[id] == s.works[id]
        || (r.works[id] == MarkWritten(s.works[id], s.now) && !Settled(s.works[id]) && !s.works[id].written))
  }

  /** A written head is on a socket that has not been ended. */
  predicate HeadLive(s: State)
    requires Known(s)
  {
    HeadWritten(s) ==> s.connection == Connected && s.socket.Some? && !s.socket.value.ended
  }

  lemma DoNextMoves(c: Config, s: State, id: Id)
    requires Core(s) && Plain(c) && HeadLive(s) && id in s.works
    ensures Moves(s, DoNext(c, s), id) && HeadLive(DoNext(c, s)) && DoNext(c, s).connection != Disconnected
    ensures s.connection == Connected && s.socket.Some? && !s.socket.value.ended ==> DoNext(c, s).connection == Connected
  {
    hide FailAll, FirstUnsettled, MarkWritten;
    if s.connection == Connected && s.socket.Some? && s.socket.value.ended {
      assert DoDisconnect(s).works[id] == s.works[id];
    }
  }

  lemma SendMoves(c: Config, s: State, request: Request, added: Id, id: Id)
    requires Core(s) && Plain(c) && id in s.works && added !in s.works
    ensures var r := Send(c, s, request, added);
      && Core(r) && Moves(s, r, id) && (HeadLive(s) ==> HeadLive(r)) && |r.queue| > 0
      && (s.connection != Disconnected || |s.queue| == 0 ==> r.connection != Disconnected)
      && (s.connection == Disconnected && |s.queue| > 0 ==> r.connection == Disconnected)
  {
    var queued := Insert(Added(s, request, added), added, request.urgent);
    InsertKeeps(s, request, added);
    InsertedQueue(s, request, added);
    if |queued.queue| == 1 {
      DoNextMoves(c, queued, id);
      DoNextKeeps(c, queued);
    }
  }

  /** The request that is sent is new, or it is written at once. */
  lemma SendOwn(c: Config, s: State, request: Request, id: Id)
    requires Core(s) && Plain(c) && id !in s.works
    ensures var r, w := Send(c, s, request, id), NewWork(request, s.now);
      && Core(r) && id in r.works && r.retries == s.retries && r.now == s.now && (HeadLive(s) ==> HeadLive(r)) && |r.queue| > 0
      && (r.works[id] == w || r.works[id] == MarkWritten(w, s.now))
      && (s.connection != Disconnected || |s.queue| == 0 ==> r.connection != Disconnected)
      && (s.connection == Disconnected && |s.queue| > 0 ==> r.connection == Disconnected)
  {
    var queued := Insert(Added(s, request, id), id, request.urgent);
    InsertKeeps(s, request, id);
    InsertedQueue(s, request, id);
    if |queued.queue| == 1 {
      DoNextMoves(c, queued, id);
      DoNextKeeps(c, queued);
    }
  }

  // ---- Steps ------------------------------------------------------------------------------------------------

  /** From a request that moved, as much is taken as was written. */
  lemma MovedSpends(c: Config, s: State, r: State, e: Event, id: Id)
    requires WriteInv(c, s, id) && Core(r) && Enabled(s, e) && Moves(s, r, id) && !Unsent(s, e, id)
    requires Settled(s.works[id]) || (r.connection == Disconnected <==> s.connection == Disconnected)
    ensures Spends(s, r, e, id) && HeldGuarded(c, r, id)
  {
  }

  /** A guarded request that was just made, and perhaps written at once. */
  predicate JustMade(c: Config, w: SendWork, now: int) {
    && Guarded(c, w.timeoutMillis) && !Settled(w) && !w.resent
    && w.deadline == Some(now + w.timeoutMillis) && (w.written <==> w.deadlineStarted)
  }

  lemma NewSpends(c: Config, s: State, r: State, e: Event, id: Id)
    requires Known(s) && Known(r) && Enabled(s, e) && !e.WriteReturned? && r.now == s.now
    requires id !in s.works && (id in r.works ==> JustMade(c, r.works[id], s.now))
    ensures Spends(s, r, e, id) && HeldGuarded(c, r, id)
  {
  }

  lemma SendSpends(c: Config, s: State, request: Request, added: Id, id: Id)
    requires WriteInv(c, s, id) && Plain(c) && Enabled(s, SendCalled(request, added)) && Fits(c, SendCalled(request, added), id)
    ensures var r := Send(c, s, request, added);
      Spends(s, r, SendCalled(request, added), id) && Calm(r) && HeldGuarded(c, r, id)
  {
    hide Send, DoNext;
    var r, e := Send(c, s, request, added), SendCalled(request, added);
    SendOwn(c, s, request, added);
    if added == id {
      NewSpends(c, s, r, e, id);
    } else if id in s.works {
      SendMoves(c, s, request, added, id);
      MovedSpends(c, s, r, e, id);
    } else {
      SendKeeps(c, s, request, added);
    }
  }

  predicate AllGuarded(c: Config, sendings: seq<Sending>, id: Id) {
    forall i :: 0 <= i < |sendings| && sendings[i].id == id ==> Guarded(c, sendings[i].request.timeoutMillis)
  }

  /** The request before a step and after: moved, or made meanwhile. */
  ghost predicate Came(c: Config, s: State, r: State, id: Id) {
    && r.now == s.now && r.retries == s.retries
    && (if id in s.works then Moves(s, r, id) else id in r.works ==> JustMade(c, r.works[id], s.now))
  }

  lemma CameOn(c: Config, s: State, t: State, r: State, id: Id)
    requires Came(c, s, t, id) && (if id in t.works then Moves(t, r, id) else Came(c, t, r, id))
    ensures Came(c, s, r, id)
  {
  }

  lemma OneSending(c: Config, s: State, sending: Sending, id: Id)
    requires Core(s) && Plain(c) && s.connection != Disconnected && sending.id !in s.works
    requires sending.id == id ==> Guarded(c, sending.request.timeoutMillis)
    ensures var r := Send(c, s, sending.request, sending.id);
      Core(r) && (HeadLive(s) ==> HeadLive(r)) && r.connection != Disconnected && Came(c, s, r, id)
  {
    hide Send;
    SendOwn(c, s, sending.request, sending.id);
    if id in s.works {
      SendMoves(c, s, sending.request, sending.id, id);
    } else if sending.id != id {
      SendAdds(c, s, sending.request, sending.id);
    }
  }

  lemma SendAdds(c: Config, s: State, request: Request, id: Id)
    requires Core(s) && id !in s.works
    ensures Send(c, s, request, id).works.Keys == s.works.Keys + {id}
  {
    var queued := Insert(Added(s, request, id), id, request.urgent);
    InsertKeeps(s, request, id);
  }

  /** After one sending the next ones are still new, and guarded if they are the request's. */
  lemma RestIsFresh(c: Config, s: State, sendings: seq<Sending>, id: Id)
    requires Core(s) && Awake(c, s) && |sendings| > 0 && Fresh(s, sendings) && AllGuarded(c, sendings, id)
    ensures var next := Send(c, s, sendings[0].request, sendings[0].id);
      Core(next) && Awake(c, next) && next.alive && Fresh(next, sendings[1..]) && AllGuarded(c, sendings[1..], id)
  {
    hide Send;
    SendKeeps(c, s, sendings[0].request, sendings[0].id);
  }

  lemma {:induction false} SendAllCame(c: Config, s: State, sendings: seq<Sending>, id: Id)
    requires Core(s) && Plain(c) && HeadLive(s) && s.connection != Disconnected
    requires Awake(c, s) && s.alive && Fresh(s, sendings) && AllGuarded(c, sendings, id)
    ensures var r := SendAll(c, s, sendings);
      Core(r) && r.alive && HeadLive(r) && r.connection != Disconnected && Came(c, s, r, id)
    decreases |sendings|
  {
    if |sendings| > 0 {
      hide Send, Came, HeadLive, Awake, OneOnWire, AllInTime, Plain;
      var next := Send(c, s, sendings[0].request, sendings[0].id);
      OneSending(c, s, sendings[0], id);
      RestIsFresh(c, s, sendings, id);
      SendAllCame(c, next, sendings[1..], id);
      CameOn(c, s, next, SendAll(c, next, sendings[1..]), id);
    }
  }

  lemma CameSpends(c: Config, s: State, r: State, e: Event, id: Id)
    requires WriteInv(c, s, id) && Core(r) && Enabled(s, e) && Came(c, s, r, id) && !e.WriteReturned?
    requires s.connection != Disconnected && r.connection != Disconnected
    ensures Spends(s, r, e, id) && HeldGuarded(c, r, id) && Calm(r)
  {
    if id in s.works {
      MovedSpends(c, s, r, e, id);
    } else {
      NewSpends(c, s, r, e, id);
    }
  }

  lemma ConnectedSpends(c: Config, s: State, listener: seq<Sending>, id: Id)
    requires WriteInv(c, s, id) && Plain(c) && Enabled(s, SocketConnected(listener)) && Fits(c, SocketConnected(listener), id)
    ensures var r := OnConnect(c, s, listener);
      Spends(s, r, SocketConnected(listener), id) && Calm(r) && HeldGuarded(c, r, id)
  {
    hide SendAll, DoNext;
    var connected := s.(connection := Connected);
    var sent := SendAll(c, connected, listener);
    SendAllCame(c, connected, listener, id);
    if id in sent.works {
      DoNextMoves(c, sent, id);
    }
    DoNextKeeps(c, sent);
    DoNextSchedules(c, sent);
    var r := OnConnect(c, s, listener);
    DoNextUp(c, sent);
    CameOn(c, s, sent, r, id);
    CameSpends(c, s, r, SocketConnected(listener), id);
  }

  lemma DoNextUp(c: Config, s: State)
    requires Known(s) && Plain(c)
    ensures DoNext(c, s).connection != Disconnected
  {
  }

  /** The head leaves the queue settled, and the queue moves on. */
  lemma RetiredMoves(c: Config, s: State, w: SendWork, buffer: Text, id: Id)
    requires Driven(c, s) && Plain(c) && s.connection == Connected && |s.queue| > 0 && id in s.works
    requires Settled(w) && w == Retire(s.works[s.queue[0]], w.outcome)
    ensures var taken := s.(works := s.works[s.queue[0] := w], buffer := buffer);
      && Core(taken) && Moves(taken, DoNext(c, Shift(taken)), id) && DoNext(c, Shift(taken)).connection != Disconnected
      && Core(DoNext(c, Shift(taken)))
  {
    var taken := s.(works := s.works[s.queue[0] := w], buffer := buffer);
    assert Core(taken);
    ShiftKeeps(taken);
    DoNextMoves(c, Shift(taken), id);
    DoNextKeeps(c, Shift(taken));
  }

  /** A request that was settled takes nothing. */
  lemma SettledSpends(c: Config, s: State, r: State, e: Event, id: Id)
    requires WriteInv(c, s, id) && Known(r) && Enabled(s, e) && id in s.works && id in r.works
    requires Settled(r.works[id]) && (r.works[id].written ==> s.works[id].written) && !Unsent(s, e, id)
    requires r.works[id].timeoutMillis == s.works[id].timeoutMillis
    requires s.works[id].deadlineStarted ==> r.works[id].deadlineStarted
    ensures Spends(s, r, e, id) && HeldGuarded(c, r, id)
  {
  }

  /** Moved, or the head, settled. */
  ghost predicate MovesOrRetires(s: State, r: State, id: Id) {
    && id in s.works && id in r.works && r.retries == s.retries && r.now == s.now
    && (Moves(s, r, id) || (Settled(r.works[id]) && r.works[id] == Retire(s.works[id], r.works[id].outcome)))
  }

  lemma {:induction false} AnsweredMoves(c: Config, s: State, length: nat, id: Id)
    requires Driven(c, s) && Plain(c) && s.connection == Connected && |s.queue| > 0 && id in s.works
    ensures var r := Answered(c, s, length);
      Core(r) && r.connection != Disconnected && MovesOrRetires(s, r, id)
  {
    hide DoNext;
    var head, cut := s.queue[0], Min(length, |s.buffer|);
    RetiredMoves(c, s, Retire(s.works[head], Resolved(s.buffer[..cut])), s.buffer[cut..], id);
  }

  lemma {:induction false} DataMoves(c: Config, s: State, chunk: Text, id: Id)
    requires Inv(c, s) && Plain(c) && s.connection == Connected && id in s.works
    ensures var r := OnData(c, s, chunk);
      Core(r) && r.connection != Disconnected && MovesOrRetires(s, r, id)
  {
    hide Answered;
    OnDataKeeps(c, s, chunk);
    var fed := s.(buffer := s.buffer + chunk);
    if HeadExpects(fed) && Claim(fed.works[fed.queue[0]].fulfill, fed.buffer) > 0 {
      AnsweredMoves(c, fed, Claim(fed.works[fed.queue[0]].fulfill, fed.buffer), id);
    }
  }

  lemma DataSpends(c: Config, s: State, chunk: Text, id: Id)
    requires WriteInv(c, s, id) && Plain(c) && Enabled(s, DataArrived(chunk))
    ensures var r := OnData(c, s, chunk);
      Spends(s, r, DataArrived(chunk), id) && Calm(r) && HeldGuarded(c, r, id)
  {
    hide OnData;
    var r := OnData(c, s, chunk);
    if id in s.works {
      DataMoves(c, s, chunk, id);
      if Moves(s, r, id) {
        MovedSpends(c, s, r, DataArrived(chunk), id);
      } else {
        SettledSpends(c, s, r, DataArrived(chunk), id);
      }
    } else {
      OnDataKeeps(c, s, chunk);
      OnDataSchedules(c, s, chunk);
      OnDataUp(c, s, chunk);
    }
  }

  lemma OnDataUp(c: Config, s: State, chunk: Text)
    requires Known(s) && Plain(c) && s.connection == Connected
    ensures OnData(c, s, chunk).connection != Disconnected && OnData(c, s, chunk).works.Keys == s.works.Keys
  {
    hide DoNext;
    var fed := s.(buffer := s.buffer + chunk);
    if HeadExpects(fed) && Claim(fed.works[fed.queue[0]].fulfill, fed.buffer) > 0 {
      var head, cut := fed.queue[0], Min(Claim(fed.works[fed.queue[0]].fulfill, fed.buffer), |fed.buffer|);
      DoNextUp(c, Shift(fed.(works := fed.works[head := Retire(fed.works[head], Resolved(fed.buffer[..cut]))], buffer := fed.buffer[cut..])));
    }
  }

  /** The socket is gone: what was written is not, and the reconnect comes too late for it. */
  lemma DroppedSpends(c: Config, s: State, e: Event, id: Id)
    requires WriteInv(c, s, id) && Plain(c) && Enabled(s, e) && !e.WriteReturned? && s.connection != Disconnected
    ensures var r := RetryToConnect(c, s);
      Spends(s, r, e, id) && Calm(r) && HeldGuarded(c, r, id)
  {
  }

  lemma RetrySpends(c: Config, s: State, id: Id)
    requires WriteInv(c, s, id) && Plain(c) && Enabled(s, RetryFired)
    ensures var r := RetryFires(c, s);
      Spends(s, r, RetryFired, id) && Calm(r) && HeldGuarded(c, r, id)
  {
  }

  lemma ResendSpends(c: Config, s: State, head: Id, id: Id)
    requires WriteInv(c, s, id) && Plain(c) && Enabled(s, WriteReturned(head, Failed(true)))
    requires IsHead(s, head) && s.works[head].written && !s.works[head].resent && s.alive
    ensures var r := OnWritten(c, s, head, Failed(true));
      Spends(s, r, WriteReturned(head, Failed(true)), id) && Calm(r) && HeldGuarded(c, r, id)
  {
  }

  lemma FailedRetries(c: Config, s: State, head: Id, nothingSent: bool)
    requires Known(s) && head in s.works && IsHead(s, head) && !(nothingSent && !s.works[head].resent && s.alive)
    ensures OnWritten(c, s, head, Failed(nothingSent))
         == RetryToConnect(c, Shift(s).(works := s.works[head := Retire(s.works[head], Rejected)]))
  {
  }

  lemma FailedSpends(c: Config, s: State, head: Id, nothingSent: bool, id: Id)
    requires WriteInv(c, s, id) && Plain(c) && Enabled(s, WriteReturned(head, Failed(nothingSent)))
    requires IsHead(s, head) && s.works[head].written && !(nothingSent && !s.works[head].resent && s.alive)
    ensures var r := OnWritten(c, s, head, Failed(nothingSent));
      Spends(s, r, WriteReturned(head, Failed(nothingSent)), id) && Calm(r) && HeldGuarded(c, r, id)
  {
    hide OnWritten, AllInTime, Timely, Awake;
    var failed := Shift(s).(works := s.works[head := Retire(s.works[head], Rejected)]);
    FailedRetries(c, s, head, nothingSent);
  }

  lemma SentSpends(c: Config, s: State, head: Id, id: Id)
    requires WriteInv(c, s, id) && Plain(c) && Enabled(s, WriteReturned(head, Sent))
    requires !s.works[head].expectResponse && IsHead(s, head) && s.works[head].written
    ensures var r := OnWritten(c, s, head, Sent);
      Spends(s, r, WriteReturned(head, Sent), id) && Calm(r) && HeldGuarded(c, r, id)
  {
    hide DoNext;
    var r, w := OnWritten(c, s, head, Sent), Retire(s.works[head], Resolved([]));
    RetiredMoves(c, s, w, s.buffer, head);
    if id in s.works {
      RetiredMoves(c, s, w, s.buffer, id);
      if id == head {
        SettledSpends(c, s, r, WriteReturned(head, Sent), id);
      } else {
        MovedSpends(c, s, r, WriteReturned(head, Sent), id);
      }
    }
  }

  lemma WriteReturnedSpends(c: Config, s: State, returned: Id, result: WriteResult, id: Id)
    requires WriteInv(c, s, id) && Plain(c) && Enabled(s, WriteReturned(returned, result))
    requires Orderly(s, WriteReturned(returned, result))
    ensures var r := OnWritten(c, s, returned, result);
      Spends(s, r, WriteReturned(returned, result), id) && Calm(r) && HeldGuarded(c, r, id)
  {
    hide OnWritten;
    match result
    case Sent =>
      if !s.works[returned].expectResponse {
        SentSpends(c, s, returned, id);
      } else {
        Ignored(c, s, returned);
      }
    case Failed(nothingSent) =>
      if nothingSent && !s.works[returned].resent && s.alive {
        ResendSpends(c, s, returned, id);
      } else {
        FailedSpends(c, s, returned, nothingSent, id);
      }
  }

  lemma Ignored(c: Config, s: State, id: Id)
    requires Known(s) && id in s.works && s.works[id].expectResponse
    ensures OnWritten(c, s, id, Sent) == s
  {
  }

  lemma StepSpends(c: Config, s: State, e: Event, id: Id)
    requires WriteInv(c, s, id) && Plain(c) && Enabled(s, e) && Orderly(s, e) && Fits(c, e, id)
    ensures Spends(s, Step(c, s, e), e, id) && WriteInv(c, Step(c, s, e), id)
  {
    hide Send, OnConnect, OnData, OnWritten, RetryFires;
    StepKeeps(c, s, e);
    match e
    case SendCalled(request, added) => SendSpends(c, s, request, added, id);
    case RetryFired => RetrySpends(c, s, id);
    case SocketConnected(listener) => ConnectedSpends(c, s, listener, id);
    case SocketClosed => DroppedSpends(c, s, SocketClosed, id);
    case DataArrived(chunk) => DataSpends(c, s, chunk, id);
    case WriteReturned(returned, result) => WriteReturnedSpends(c, s, returned, result, id);
    case _ =>
  }

  // ---- Over every run ---------------------------------------------------------------------------------------------

  predicate AllFit(c: Config, events: seq<Event>, id: Id) {
    forall i :: 0 <= i < |events| ==> Fits(c, events[i], id)
  }

  lemma {:induction false} CarriedAtMostLeft(c: Config, s: State, events: seq<Event>, id: Id)
    requires WriteInv(c, s, id) && Plain(c) && Possible(c, s, events) && AllOrderly(c, s, events) && AllFit(c, events, id)
    ensures Carried(c, s, events, id) <= Left(s, id)
    decreases |events|
  {
    if |events| > 0 {
      assert Fits(c, events[0], id);
      StepSpends(c, s, events[0], id);
      CarriedAtMostLeft(c, Step(c, s, events[0]), events[1..], id);
    }
  }

  /** With a timeout of its own no longer than the reconnect interval, a request is carried to the
      server at most once, over every run in which nobody shuts the socket down or resets it and
      writes report before their socket is gone. */
  lemma {:induction false} CarriedOnce(c: Config, events: seq<Event>, id: Id)
    requires Plain(c) && Possible(c, INITIAL, events) && AllOrderly(c, INITIAL, events) && AllFit(c, events, id)
    ensures Carried(c, INITIAL, events, id) <= 1
  {
    CarriedAtMostLeft(c, INITIAL, events, id);
  }

  // ---- The guard is exact -------------------------------------------------------------------------------------------

  lemma StillKnown(c: Config, s: State, e: Event, id: Id)
    requires Inv(c, s) && Enabled(s, e) && id in s.works
    ensures id in Step(c, s, e).works && Fits(c, e, id)
  {
    StepKeeps(c, s, e);
  }

  lemma {:induction false} SentBefore(c: Config, s: State, events: seq<Event>, id: Id)
    requires Inv(c, s) && Possible(c, s, events) && id in s.works
    ensures AllFit(c, events, id)
    decreases |events|
  {
    if |events| > 0 {
      StillKnown(c, s, events[0], id);
      StepKeeps(c, s, events[0]);
      SentBefore(c, Step(c, s, events[0]), events[1..], id);
      forall i | 0 <= i < |events|
        ensures Fits(c, events[i], id)
      {
        assert i > 0 ==> events[i] == events[1..][i - 1];
      }
    }
  }

  lemma {:induction false} OneMore(c: Config, s: State, e: Event, later: seq<Event>, id: Id)
    requires Known(s) && Enabled(s, e) && Orderly(s, e)
    requires Possible(c, Step(c, s, e), later) && AllOrderly(c, Step(c, s, e), later)
    ensures Possible(c, s, [e] + later) && AllOrderly(c, s, [e] + later)
    ensures Carried(c, s, [e] + later, id) == Carried(c, Step(c, s, e), later, id)
      + (if Writes(s, Step(c, s, e), id) then 1 else 0) - (if Unsent(s, e, id) then 1 else 0)
  {
    hide Step, Enabled, Orderly, Writes, Unsent;
    assert ([e] + later)[1..] == later && ([e] + later)[0] == e;
  }

  /** The request alone in the queue. */
  function Waiting(w: SendWork, connection: ConnectionState, socket: Option<Link>, sockets: nat, retries: seq<int>, now: int): State {
    State([0], map[0 := w], [], connection, socket, true, sockets, retries, now)
  }

  lemma {:induction false} ConnectedAlone(c: Config, w: SendWork, number: nat, sockets: nat, now: int)
    requires Plain(c) && !Settled(w) && !w.written
    ensures Step(c, Waiting(w, Connecting, Some(Link(number, false, [])), sockets, [], now), SocketConnected([]))
      == Waiting(MarkWritten(w, now), Connected, Some(Link(number, false, [0])), sockets, [], now)
  {
    var up := Waiting(w, Connected, Some(Link(number, false, [])), sockets, [], now);
    assert FirstUnsettled(up.queue, up.works, 0) == 0 && up.queue[0..] == up.queue;
    assert DropSettled(up) == up;
    assert up.works[0 := MarkWritten(w, now)] == map[0 := MarkWritten(w, now)];
    assert [] + [0] == [0];
    assert WriteHead(up) == Waiting(MarkWritten(w, now), Connected, Some(Link(number, false, [0])), sockets, [], now);
  }

  lemma {:induction false} ClosedAlone(c: Config, w: SendWork, number: nat, sockets: nat, now: int)
    requires Plain(c)
    ensures Step(c, Waiting(w, Connected, Some(Link(number, false, [0])), sockets, [], now), SocketClosed)
      == Waiting(w.(written := false), Disconnected, None, sockets, [now + c.retryInterval], now)
  {
    assert Unwriting(map[0 := w], [0]) == map[0 := w.(written := false)];
    assert [] + [now + c.retryInterval] == [now + c.retryInterval];
  }

  lemma {:induction false} RetriedAlone(c: Config, w: SendWork, sockets: nat, due: int, now: int)
    requires Plain(c)
    ensures RetryFires(c, Waiting(w, Disconnected, None, sockets, [due], now))
      == Waiting(w, Connecting, Some(Link(sockets, false, [])), sockets + 1, [], now)
  {
    assert [due][1..] == [];
  }

  lemma SentAlone(c: Config, request: Request)
    requires Plain(c)
    ensures Step(c, INITIAL, SendCalled(request, 0)) == Waiting(NewWork(request, 0), Connecting, Some(Link(0, false, [])), 1, [], 0)
  {
  }

  lemma {:induction false} SecondConnection(c: Config, w: SendWork, now: int)
    requires Plain(c) && !Settled(w) && !w.written && (w.deadline.Some? ==> now < w.deadline.value)
    ensures var s := Waiting(w, Disconnected, None, 1, [now], now);
      var run := [RetryFired] + ([SocketConnected([])] + []);
      Possible(c, s, run) && AllOrderly(c, s, run) && Carried(c, s, run, 0) == 1
  {
    hide RetryFires, OnConnect;
    var s := Waiting(w, Disconnected, None, 1, [now], now);
    var connecting := Waiting(w, Connecting, Some(Link(1, false, [])), 2, [], now);
    RetriedAlone(c, w, 1, now, now);
    ConnectedAlone(c, w, 1, 2, now);
    OneMore(c, connecting, SocketConnected([]), [], 0);
    OneMore(c, s, RetryFired, [SocketConnected([])] + [], 0);
  }

  /** After the first write: dropped before its answer, and written again on the next connection. */
  lemma {:induction false} DroppedAndRewritten(c: Config, w: SendWork)
    requires Plain(c) && !Settled(w) && (w.deadline.Some? ==> c.retryInterval < w.deadline.value)
    ensures var s, now := Waiting(w, Connected, Some(Link(0, false, [0])), 1, [], 0), c.retryInterval;
      var run := [SocketClosed] + ([TimePassed(now)] + ([RetryFired] + ([SocketConnected([])] + [])));
      Possible(c, s, run) && AllOrderly(c, s, run) && Carried(c, s, run, 0) == 1
  {
    hide OnClose, RetryFires, OnConnect, Carried, Possible, AllOrderly;
    var now, unwritten := c.retryInterval, w.(written := false);
    var s := Waiting(w, Connected, Some(Link(0, false, [0])), 1, [], 0);
    var dropped := Waiting(unwritten, Disconnected, None, 1, [now], 0);
    ClosedAlone(c, w, 0, 1, 0);
    assert [0 + now] == [now];
    SecondConnection(c, unwritten, now);
    var rest := [RetryFired] + ([SocketConnected([])] + []);
    OneMore(c, dropped, TimePassed(now), rest, 0);
    OneMore(c, s, SocketClosed, [TimePassed(now)] + rest, 0);
  }

  /** A request with no timeout, or one beyond the reconnect interval, can be carried twice. */
  lemma {:induction false} CarriedTwice(c: Config, request: Request) returns (run: seq<Event>)
    requires Plain(c) && !Guarded(c, request.timeoutMillis)
    ensures |run| > 0 && run[0] == SendCalled(request, 0)
    ensures Possible(c, INITIAL, run) && AllOrderly(c, INITIAL, run) && Carried(c, INITIAL, run, 0) == 2
  {
    hide Send, OnConnect;
    var w := NewWork(request, 0);
    var connecting := Waiting(w, Connecting, Some(Link(0, false, [])), 1, [], 0);
    SentAlone(c, request);
    ConnectedAlone(c, w, 0, 1, 0);
    DroppedAndRewritten(c, MarkWritten(w, 0));
    var rest := [SocketClosed] + ([TimePassed(c.retryInterval)] + ([RetryFired] + ([SocketConnected([])] + [])));
    OneMore(c, connecting, SocketConnected([]), rest, 0);
    rest := [SocketConnected([])] + rest;
    OneMore(c, INITIAL, SendCalled(request, 0), rest, 0);
    run := [SendCalled(request, 0)] + rest;
  }

  /** The timeout is exactly what decides: a request is carried at most once in every such run if
      and only if its timeout is positive and no longer than the reconnect interval. */
  lemma {:induction false} CarriedOnceIff(c: Config, request: Request)
    requires Plain(c)
    ensures Guarded(c, request.timeoutMillis) <==>
      forall run: seq<Event> ::
        |run| > 0 && run[0] == SendCalled(request, 0) && Possible(c, INITIAL, run) && AllOrderly(c, INITIAL, run) ==>
          Carried(c, INITIAL, run, 0) <= 1
  {
    if Guarded(c, request.timeoutMillis) {
      forall run: seq<Event> | |run| > 0 && run[0] == SendCalled(request, 0) && Possible(c, INITIAL, run) && AllOrderly(c, INITIAL, run)
        ensures Carried(c, INITIAL, run, 0) <= 1
      {
        FirstFits(c, request, run);
        CarriedOnce(c, run, 0);
      }
    } else {
      var run := CarriedTwice(c, request);
    }
  }

  lemma {:induction false} FirstFits(c: Config, request: Request, run: seq<Event>)
    requires Plain(c) && Guarded(c, request.timeoutMillis)
    requires |run| > 0 && run[0] == SendCalled(request, 0) && Possible(c, INITIAL, run)
    ensures AllFit(c, run, 0)
  {
    SentAlone(c, request);
    StepKeeps(c, INITIAL, run[0]);
    SentBefore(c, Step(c, INITIAL, run[0]), run[1..], 0);
    forall i | 0 <= i < |run|
      ensures Fits(c, run[i], 0)
    {
      assert i > 0 ==> run[i] == run[1..][i - 1];
    }
  }
}
