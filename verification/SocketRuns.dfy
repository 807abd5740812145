/** Everything that can happen to a socket, and what holds in every state it can reach. */
module SocketRuns {
  import opened Text
  import opened Unsolicited
  import opened SocketQueue

  datatype Event =
    | SendCalled(request: Request, id: Id)
    | DisconnectCalled
    | ResetCalled
    | RetryFired
    | SocketConnected(listener: seq<Sending>)
    | SocketClosed
    | PeerEnded
    | DataArrived(chunk: Text)
    | WriteReturned(id: Id, result: WriteResult)
    | TimerFired(id: Id)
    | TimePassed(until: int)

  predicate Fresh(s: State, sendings: seq<Sending>) {
    && (forall i :: 0 <= i < |sendings| ==> sendings[i].id !in s.works)
    && (forall i, j :: 0 <= i < j < |sendings| ==> sendings[i].id != sendings[j].id)
  }

  /** Events come from the current socket only. A write reports back once, at any later time,
      even after its socket died; a timer fires when it is due, before time goes on, and of the
      timers due at once those of the requests fire before a reconnect opens a socket. */
  predicate Enabled(s: State, e: Event) {
    match e
    case SendCalled(_, id) => id !in s.works
    case DisconnectCalled => true
    case ResetCalled => true
    case RetryFired =>
      && |s.retries| > 0 && s.retries[0] <= s.now
      && forall id <- s.works :: s.works[id].deadline.Some? ==> s.now < s.works[id].deadline.value
    case SocketConnected(listener) => s.connection == Connecting && Fresh(s, listener)
    case SocketClosed => s.socket.Some?
    case PeerEnded => s.socket.Some?
    case DataArrived(_) => s.connection == Connected
    case WriteReturned(id, _) => id in s.works && s.works[id].deadlineStarted
    case TimerFired(id) => id in s.works && s.works[id].deadline == Some(s.now)
    case TimePassed(until) =>
      && s.now <= until && (forall i :: 0 <= i < |s.retries| ==> until <= s.retries[i])
      && forall id <- s.works :: s.works[id].deadline.Some? ==> until <= s.works[id].deadline.value
  }

  function Step(c: Config, s: State, e: Event): (r: State)
    requires Known(s) && Enabled(s, e)
    ensures Known(r)
  {
    match e
    case SendCalled(request, id) => Send(c, s, request, id)
    case DisconnectCalled => Disconnect(s)
    case ResetCalled => Reset(c, s)
    case RetryFired => RetryFires(c, s)
    case SocketConnected(listener) => OnConnect(c, s, listener)
    case SocketClosed => OnClose(c, s)
    case PeerEnded => s.(socket := Some(s.socket.value.(ended := true)))
    case DataArrived(chunk) => OnData(c, s, chunk)
    case WriteReturned(id, result) => OnWritten(c, s, id, result)
    case TimerFired(id) => TimerFires(s, id)
    case TimePassed(until) => s.(now := until)
  }

  /** Every event is possible when its turn comes. */
  predicate Possible(c: Config, s: State, events: seq<Event>)
    requires Known(s)
    decreases |events|
  {
    |events| == 0 || (Enabled(s, events[0]) && Possible(c, Step(c, s, events[0]), events[1..]))
  }

  function Run(c: Config, s: State, events: seq<Event>): (r: State)
    requires Known(s) && Possible(c, s, events)
    ensures Known(r)
    decreases |events|
  {
    if |events| == 0 then s else Run(c, Step(c, s, events[0]), events[1..])
  }

  // ---- Invariants ------------------------------------------------------------------------------

  /** Nothing is queued twice, and whatever is not settled is queued. */
  predicate Accounted(s: State) {
    && Known(s)
    && (forall i, j :: 0 <= i < j < |s.queue| ==> s.queue[i] != s.queue[j])
    && (forall id <- s.works :: !Settled(s.works[id]) ==> id in s.queue)
  }

  /** Only the head of the queue is ever on the wire, and only while connected. */
  predicate OneOnWire(s: State)
    requires Known(s)
  {
    && (s.connection == Disconnected <==> s.socket.None?)
    && (forall i :: 1 <= i < |s.queue| ==> !s.works[s.queue[i]].written)
    && (s.connection != Connected ==> !HeadWritten(s) && s.buffer == [])
  }

  /** The time left to a work that is not settled; a settled one has no timer. */
  predicate InTime(w: SendWork, now: int) {
    if Settled(w) then w.deadline.None?
    else
      w.timeoutMillis > 0 ==>
        && w.deadline.Some? && now <= w.deadline.value
        && w.deadline.value <= w.createdAt + (if w.deadlineStarted then 2 else 1) * w.timeoutMillis
  }

  predicate AllInTime(s: State) {
    forall id <- s.works :: InTime(s.works[id], s.now)
  }

  predicate Core(s: State) {
    Accounted(s) && OneOnWire(s) && AllInTime(s)
  }

  /** While connected, the head of the queue has been written. */
  predicate HeadOnWire(s: State)
    requires Known(s)
  {
    s.connection == Connected && |s.queue| > 0 ==> HeadWritten(s)
  }

  /** A shut-down socket has nothing queued; a disconnected one with something queued will
      reconnect, if reconnecting is on. */
  predicate Awake(c: Config, s: State) {
    && (!s.alive ==> |s.queue| == 0 && s.connection == Disconnected)
    && (s.connection == Disconnected && |s.queue| > 0 && c.retryInterval >= 0 ==> |s.retries| > 0)
  }

  predicate Driven(c: Config, s: State) {
    Core(s) && HeadOnWire(s) && Awake(c, s)
  }

  /** Reconnects are scheduled only when reconnecting is on, and none is overdue. */
  predicate Timely(c: Config, s: State) {
    forall i :: 0 <= i < |s.retries| ==> Scheduled(c, s.now, s.retries[i])
  }

  predicate Scheduled(c: Config, now: int, due: int) {
    c.retryInterval >= 0 && now <= due <= now + c.retryInterval
  }

  predicate Inv(c: Config, s: State) {
    Driven(c, s) && Timely(c, s)
  }

  /** How one work may change: its request stays, its outcome is final once there. */
  ghost predicate Evolves(w: SendWork, w': SendWork) {
    && w'.message == w.message && w'.fulfill == w.fulfill && w'.timeoutMillis == w.timeoutMillis
    && w'.expectResponse == w.expectResponse && w'.createdAt == w.createdAt
    && (Settled(w) ==> w'.outcome == w.outcome)
    && (w.deadlineStarted ==> w'.deadlineStarted)
  }

  ghost predicate Later(s: State, s': State) {
    forall id <- s.works :: id in s'.works && Evolves(s.works[id], s'.works[id])
  }

  // ---- The pieces keep the invariants ---------------------------------------------------------------

  lemma RetireKeeps(s: State, id: Id, outcome: Outcome)
    requires Core(s) && id in s.works && !outcome.Pending?
    ensures var r := s.(works := s.works[id := Retire(s.works[id], outcome)]);
      Core(r) && Later(s, r) && Settled(r.works[id]) && (HeadOnWire(s) ==> HeadOnWire(r))
  {
  }

  lemma ShiftKeeps(s: State)
    requires Core(s) && |s.queue| > 0 && Settled(s.works[s.queue[0]])
    ensures Core(Shift(s)) && Later(s, Shift(s))
  {
    assert s.queue == [s.queue[0]] + s.queue[1..];
  }

  lemma FailAllKeeps(s: State)
    requires Core(s)
    ensures Core(FailAll(s)) && Later(s, FailAll(s)) && HeadOnWire(FailAll(s))
  {
  }

  lemma DoDisconnectKeeps(s: State)
    requires Core(s)
    ensures Core(DoDisconnect(s)) && Later(s, DoDisconnect(s)) && HeadOnWire(DoDisconnect(s))
  {
  }

  lemma ConnectKeeps(c: Config, s: State)
    requires Core(s) && s.connection == Disconnected
    ensures Core(Connect(c, s)) && Later(s, Connect(c, s)) && HeadOnWire(Connect(c, s))
    ensures s.alive ==> Awake(c, Connect(c, s))
  {
    FailAllKeeps(s.(connection := Connecting, socket := Some(Link(0, false, []))));
  }

  lemma RetryToConnectKeeps(c: Config, s: State)
    requires Core(s)
    ensures var r := RetryToConnect(c, s);
      Core(r) && Later(s, r) && HeadOnWire(r) && ((!s.alive ==> |s.queue| == 0) ==> Awake(c, r))
  {
    DoDisconnectKeeps(s);
  }

  lemma DropSettledAccounted(s: State)
    requires Accounted(s)
    ensures Accounted(DropSettled(s))
  {
    var k := FirstUnsettled(s.queue, s.works, 0);
    var rest := s.queue[k..];
    forall id | id in s.works && !Settled(s.works[id])
      ensures id in rest
    {
      var i :| 0 <= i < |s.queue| && s.queue[i] == id;
      assert rest[i - k] == id;
    }
  }

  lemma DropSettledKeeps(s: State)
    requires Core(s)
    ensures Core(DropSettled(s)) && Later(s, DropSettled(s))
  {
    DropSettledAccounted(s);
    var k := FirstUnsettled(s.queue, s.works, 0);
    assert forall i :: 0 <= i < |s.queue| - k ==> s.queue[k..][i] == s.queue[i + k];
    assert OneOnWire(DropSettled(s));
  }

  lemma WriteHeadKeeps(s: State)
    requires Core(s) && |s.queue| > 0 && s.connection == Connected && !Settled(s.works[s.queue[0]])
    ensures Core(WriteHead(s)) && Later(s, WriteHead(s)) && HeadWritten(WriteHead(s))
  {
  }

  lemma DoNextKeeps(c: Config, s: State)
    requires Core(s) && s.alive
    ensures Driven(c, DoNext(c, s)) && Later(s, DoNext(c, s))
    ensures DoNext(c, s).alive && DoNext(c, s).works.Keys == s.works.Keys
  {
    if s.connection == Connecting {
    } else if s.connection == Disconnected {
      ConnectKeeps(c, s);
    } else if s.socket.value.ended {
      DoDisconnectKeeps(s);
      ConnectKeeps(c, DoDisconnect(s));
    } else {
      DropSettledKeeps(s);
      var d := DropSettled(s);
      if |d.queue| > 0 && !HeadWritten(d) {
        WriteHeadKeeps(d);
      }
    }
  }

  lemma InsertedAt(queue: seq<Id>, at: nat, id: Id)
    requires at <= |queue| && id !in queue
    requires forall i, j :: 0 <= i < j < |queue| ==> queue[i] != queue[j]
    ensures var r := queue[..at] + [id] + queue[at..];
      && (forall i, j :: 0 <= i < j < |r| ==> r[i] != r[j])
      && (forall x :: x in r <==> x == id || x in queue)
      && r[at] == id && (forall i :: 0 <= i < at ==> r[i] == queue[i])
  {
    assert queue == queue[..at] + queue[at..];
  }

  function Added(s: State, request: Request, id: Id): State {
    s.(alive := true, works := s.works[id := NewWork(request, s.now)])
  }

  function Place(s: State, urgent: bool): (at: nat)
    requires Known(s)
    ensures at <= |s.queue|
  {
    if !urgent then |s.queue| else if HeadWritten(s) then 1 else 0
  }

  /** A new work goes behind a written head, wherever it was asked to go. */
  lemma InsertedQueue(s: State, request: Request, id: Id)
    requires Core(s) && id !in s.works
    ensures var at := Place(s, request.urgent);
      Insert(Added(s, request, id), id, request.urgent)
        == Added(s, request, id).(queue := s.queue[..at] + [id] + s.queue[at..])
  {
    assert HeadWritten(Added(s, request, id)) <==> HeadWritten(s);
    if !request.urgent {
      assert s.queue[..|s.queue|] + [id] + s.queue[|s.queue|..] == s.queue + [id];
    }
  }

  lemma PlacedOnWire(s: State, works: map<Id, SendWork>, at: nat, id: Id)
    requires Known(s) && OneOnWire(s) && id !in s.works && at <= |s.queue| && (HeadWritten(s) ==> at >= 1)
    requires works.Keys == s.works.Keys + {id} && !works[id].written
    requires forall x <- s.works :: works[x] == s.works[x]
    ensures var r := s.(works := works, queue := s.queue[..at] + [id] + s.queue[at..]);
      Known(r) && OneOnWire(r) && (|s.queue| > 0 && HeadOnWire(s) ==> HeadOnWire(r))
  {
    var q := s.queue[..at] + [id] + s.queue[at..];
    forall i | 0 <= i < |q|
      ensures q[i] == if i < at then s.queue[i] else if i == at then id else s.queue[i - 1]
    {
    }
  }

  lemma InsertKeeps(s: State, request: Request, id: Id)
    requires Core(s) && id !in s.works
    ensures var r := Insert(Added(s, request, id), id, request.urgent);
      && Core(r) && Later(s, r) && (|s.queue| > 0 && HeadOnWire(s) ==> HeadOnWire(r))
  {
    var at := Place(s, request.urgent);
    InsertedQueue(s, request, id);
    InsertedAt(s.queue, at, id);
    PlacedOnWire(s.(alive := true), Added(s, request, id).works, at, id);
  }

  /** The state in which a listener runs: connected, the head perhaps not yet written. */
  lemma SendKeeps(c: Config, s: State, request: Request, id: Id)
    requires Core(s) && Awake(c, s) && id !in s.works
    ensures var r := Send(c, s, request, id);
      && Core(r) && Awake(c, r) && Later(s, r) && r.alive && (HeadOnWire(s) ==> HeadOnWire(r))
      && r.works.Keys == s.works.Keys + {id}
  {
    var queued := Insert(Added(s, request, id), id, request.urgent);
    InsertKeeps(s, request, id);
    if |queued.queue| == 1 {
      DoNextKeeps(c, queued);
    }
  }

  lemma {:induction false} SendAllKeeps(c: Config, s: State, sendings: seq<Sending>)
    requires Core(s) && Awake(c, s) && s.alive && Fresh(s, sendings)
    ensures var r := SendAll(c, s, sendings);
      Core(r) && Awake(c, r) && Later(s, r) && r.alive
    decreases |sendings|
  {
    if |sendings| > 0 {
      SendKeeps(c, s, sendings[0].request, sendings[0].id);
      SendAllKeeps(c, Send(c, s, sendings[0].request, sendings[0].id), sendings[1..]);
    }
  }

  lemma OnConnectKeeps(c: Config, s: State, listener: seq<Sending>)
    requires Driven(c, s) && s.connection == Connecting && Fresh(s, listener)
    ensures Driven(c, OnConnect(c, s, listener)) && Later(s, OnConnect(c, s, listener))
  {
    var connected := s.(connection := Connected);
    SendAllKeeps(c, connected, listener);
    DoNextKeeps(c, SendAll(c, connected, listener));
  }

  lemma AnsweredKeeps(c: Config, s: State, length: nat)
    requires Driven(c, s) && |s.queue| > 0 && s.connection == Connected
    ensures Driven(c, Answered(c, s, length)) && Later(s, Answered(c, s, length))
  {
    var id, cut := s.queue[0], Min(length, |s.buffer|);
    RetireKeeps(s, id, Resolved(s.buffer[..cut]));
    var retired := s.(works := s.works[id := Retire(s.works[id], Resolved(s.buffer[..cut]))]);
    var taken := retired.(buffer := s.buffer[cut..]);
    ShiftKeeps(taken);
    DoNextKeeps(c, Shift(taken));
  }

  lemma OnDataKeeps(c: Config, s: State, chunk: Text)
    requires Driven(c, s) && s.connection == Connected
    ensures Driven(c, OnData(c, s, chunk)) && Later(s, OnData(c, s, chunk))
  {
    var fed := s.(buffer := s.buffer + chunk);
    if HeadExpects(fed) {
      var length := Claim(fed.works[fed.queue[0]].fulfill, fed.buffer);
      if length > 0 {
        AnsweredKeeps(c, fed, length);
        var next := Answered(c, fed, length);
        assert next.connection != Connected ==> |next.buffer| == 0;
      }
    }
  }

  lemma ResendKeeps(c: Config, s: State, id: Id)
    requires Driven(c, s) && IsHead(s, id) && s.alive
    ensures var r := Connect(c, DoDisconnect(s.(works := s.works[id := s.works[id].(resent := true)])));
      Driven(c, r) && Later(s, r)
  {
    var marked := s.(works := s.works[id := s.works[id].(resent := true)]);
    assert Core(marked) && Later(s, marked);
    DoDisconnectKeeps(marked);
    ConnectKeeps(c, DoDisconnect(marked));
    LaterAgain(s, marked, DoDisconnect(marked));
    LaterAgain(s, DoDisconnect(marked), Connect(c, DoDisconnect(marked)));
  }

  /** A work taken out of the queue if it is the head, settled and its timer cleared. */
  lemma RetiredShiftKeeps(s: State, id: Id, outcome: Outcome)
    requires Core(s) && id in s.works && !outcome.Pending?
    ensures var retired := s.(works := s.works[id := Retire(s.works[id], outcome)]);
      var r := if IsHead(s, id) then Shift(retired) else retired;
      Core(r) && Later(s, r)
  {
    var retired := s.(works := s.works[id := Retire(s.works[id], outcome)]);
    RetireKeeps(s, id, outcome);
    if IsHead(s, id) {
      ShiftKeeps(retired);
      LaterAgain(s, retired, Shift(retired));
    }
  }

  lemma OnFailedKeeps(c: Config, s: State, id: Id)
    requires Driven(c, s) && id in s.works
    ensures var rest := if IsHead(s, id) then Shift(s) else s;
      var r := RetryToConnect(c, rest.(works := rest.works[id := Retire(s.works[id], Rejected)]));
      Driven(c, r) && Later(s, r)
  {
    RetiredShiftKeeps(s, id, Rejected);
    var retired := s.(works := s.works[id := Retire(s.works[id], Rejected)]);
    var rest := if IsHead(s, id) then Shift(retired) else retired;
    RetryToConnectKeeps(c, rest);
    LaterAgain(s, rest, RetryToConnect(c, rest));
  }

  lemma OnSentKeeps(c: Config, s: State, id: Id)
    requires Driven(c, s) && id in s.works
    ensures var retired := s.(works := s.works[id := Retire(s.works[id], Resolved([]))]);
      var r := if IsHead(s, id) then DoNext(c, Shift(retired)) else retired;
      Driven(c, r) && Later(s, r)
  {
    var retired := s.(works := s.works[id := Retire(s.works[id], Resolved([]))]);
    RetireKeeps(s, id, Resolved([]));
    if IsHead(s, id) {
      RetiredShiftKeeps(s, id, Resolved([]));
      DoNextKeeps(c, Shift(retired));
      LaterAgain(s, Shift(retired), DoNext(c, Shift(retired)));
    }
  }

  lemma OnWrittenKeeps(c: Config, s: State, id: Id, result: WriteResult)
    requires Driven(c, s) && id in s.works
    ensures Driven(c, OnWritten(c, s, id, result)) && Later(s, OnWritten(c, s, id, result))
  {
    match result
    case Failed(nothingSent) =>
      if nothingSent && !s.works[id].resent && IsHead(s, id) && s.alive {
        ResendKeeps(c, s, id);
      } else {
        OnFailedKeeps(c, s, id);
      }
    case Sent =>
      if !s.works[id].expectResponse {
        OnSentKeeps(c, s, id);
      }
  }

  lemma DisconnectKeeps(c: Config, s: State)
    requires Driven(c, s)
    ensures Driven(c, Disconnect(s)) && Later(s, Disconnect(s))
  {
    var dead := s.(alive := false);
    assert Core(dead);
    DoDisconnectKeeps(dead);
    FailAllKeeps(DoDisconnect(dead));
  }

  lemma ResetKeeps(c: Config, s: State)
    requires Driven(c, s)
    ensures Driven(c, Reset(c, s)) && Later(s, Reset(c, s))
  {
    FailAllKeeps(s);
    RetryToConnectKeeps(c, FailAll(s));
  }

  lemma {:induction false} SendAllSchedules(c: Config, s: State, sendings: seq<Sending>)
    requires Known(s)
    ensures SendAll(c, s, sendings).retries == s.retries && SendAll(c, s, sendings).now == s.now
    decreases |sendings|
  {
    if |sendings| > 0 {
      SendAllSchedules(c, Send(c, s, sendings[0].request, sendings[0].id), sendings[1..]);
    }
  }

  lemma DoNextSchedules(c: Config, s: State)
    requires Known(s)
    ensures DoNext(c, s).retries == s.retries && DoNext(c, s).now == s.now
  {
  }

  lemma OnDataSchedules(c: Config, s: State, chunk: Text)
    requires Known(s)
    ensures OnData(c, s, chunk).retries == s.retries && OnData(c, s, chunk).now == s.now
  {
    hide DoNext;
    var fed := s.(buffer := s.buffer + chunk);
    if HeadExpects(fed) && Claim(fed.works[fed.queue[0]].fulfill, fed.buffer) > 0 {
      AnsweredSchedules(c, fed, Claim(fed.works[fed.queue[0]].fulfill, fed.buffer));
    }
  }

  lemma AnsweredSchedules(c: Config, s: State, length: nat)
    requires Known(s) && |s.queue| > 0
    ensures Answered(c, s, length).retries == s.retries && Answered(c, s, length).now == s.now
  {
    hide DoNext;
    var id, cut := s.queue[0], Min(length, |s.buffer|);
    DoNextSchedules(c, Shift(s.(works := s.works[id := Retire(s.works[id], Resolved(s.buffer[..cut]))], buffer := s.buffer[cut..])));
  }

  lemma StillTimely(c: Config, s: State, r: State)
    requires Timely(c, s) && r.retries == s.retries && r.now == s.now
    ensures Timely(c, r)
  {
    forall i | 0 <= i < |r.retries|
      ensures Scheduled(c, r.now, r.retries[i])
    {
      assert Scheduled(c, s.now, s.retries[i]);
    }
  }

  lemma RetryTimely(c: Config, s: State)
    requires Known(s) && Timely(c, s)
    ensures Timely(c, RetryToConnect(c, s))
  {
    var r := RetryToConnect(c, s);
    assert r.now == s.now && r.retries[..|s.retries|] == s.retries;
    forall i | 0 <= i < |r.retries|
      ensures Scheduled(c, r.now, r.retries[i])
    {
      assert i < |s.retries| ==> r.retries[i] == s.retries[i] && Scheduled(c, s.now, s.retries[i]);
    }
  }

  lemma OnWrittenTimely(c: Config, s: State, id: Id, result: WriteResult)
    requires Known(s) && Timely(c, s) && id in s.works
    ensures Timely(c, OnWritten(c, s, id, result))
  {
    hide DoNext, RetryToConnect;
    var r := OnWritten(c, s, id, result);
    match result
    case Failed(nothingSent) =>
      if nothingSent && !s.works[id].resent && IsHead(s, id) && s.alive {
        StillTimely(c, s, r);
      } else {
        var rest := if IsHead(s, id) then Shift(s) else s;
        var failed := rest.(works := rest.works[id := Retire(s.works[id], Rejected)]);
        StillTimely(c, s, failed);
        RetryTimely(c, failed);
      }
    case Sent =>
      if !s.works[id].expectResponse && IsHead(s, id) {
        DoNextSchedules(c, Shift(s.(works := s.works[id := Retire(s.works[id], Resolved([]))])));
      }
      StillTimely(c, s, r);
  }

  lemma StepTimely(c: Config, s: State, e: Event)
    requires Known(s) && Timely(c, s) && Enabled(s, e)
    ensures Timely(c, Step(c, s, e))
  {
    hide OnWritten, OnData, DoNext, SendAll;
    match e
    case SendCalled(request, id) =>
      DoNextSchedules(c, Insert(s.(alive := true, works := s.works[id := NewWork(request, s.now)]), id, request.urgent));
    case SocketConnected(listener) =>
      SendAllSchedules(c, s.(connection := Connected), listener);
      DoNextSchedules(c, SendAll(c, s.(connection := Connected), listener));
    case DataArrived(chunk) => OnDataSchedules(c, s, chunk);
    case WriteReturned(id, result) => OnWrittenTimely(c, s, id, result);
    case _ =>
  }

  /** Every event keeps every invariant, loses no request and changes no outcome. */
  lemma StepKeeps(c: Config, s: State, e: Event)
    requires Inv(c, s) && Enabled(s, e)
    ensures Inv(c, Step(c, s, e)) && Later(s, Step(c, s, e))
  {
    StepTimely(c, s, e);
    StepDrives(c, s, e);
  }

  lemma StepDrives(c: Config, s: State, e: Event)
    requires Driven(c, s) && Enabled(s, e)
    ensures Driven(c, Step(c, s, e)) && Later(s, Step(c, s, e))
  {
    match e
    case SendCalled(request, id) => SendKeeps(c, s, request, id);
    case DisconnectCalled => DisconnectKeeps(c, s);
    case ResetCalled => ResetKeeps(c, s);
    case RetryFired =>
      if s.alive && s.connection == Disconnected {
        ConnectKeeps(c, s.(retries := s.retries[1..]));
      }
    case SocketConnected(listener) => OnConnectKeeps(c, s, listener);
    case SocketClosed => RetryToConnectKeeps(c, s);
    case PeerEnded =>
    case DataArrived(chunk) => OnDataKeeps(c, s, chunk);
    case WriteReturned(id, result) => OnWrittenKeeps(c, s, id, result);
    case TimerFired(id) => RetireKeeps(s, id, Rejected);
    case TimePassed(until) =>
  }

  lemma {:induction false} RunKeeps(c: Config, s: State, events: seq<Event>)
    requires Inv(c, s) && Possible(c, s, events)
    ensures Inv(c, Run(c, s, events)) && Later(s, Run(c, s, events))
    decreases |events|
  {
    if |events| > 0 {
      StepKeeps(c, s, events[0]);
      RunKeeps(c, Step(c, s, events[0]), events[1..]);
      LaterAgain(s, Step(c, s, events[0]), Run(c, s, events));
    }
  }

  lemma LaterAgain(a: State, b: State, d: State)
    requires Later(a, b) && Later(b, d)
    ensures Later(a, d)
  {
  }

  // ---- Over every run ------------------------------------------------------------------------------------

  /** The state after any possible events from the start. */
  ghost predicate Reached(c: Config, events: seq<Event>, s: State) {
    Possible(c, INITIAL, events) && s == Run(c, INITIAL, events)
  }

  /** Only the head of the queue is ever written, and a connected socket with something queued
      has written it. Attribution of replies rests on this. */
  lemma OnlyHeadOnWire(c: Config, events: seq<Event>, s: State)
    requires Reached(c, events, s)
    ensures forall i :: 0 <= i < |s.queue| && s.works[s.queue[i]].written ==> i == 0 && s.connection == Connected
    ensures s.connection == Connected && |s.queue| > 0 ==> s.works[s.queue[0]].written
  {
    RunKeeps(c, INITIAL, events);
  }

  /** Every request ever made is settled or queued, and queued at most once. */
  lemma NothingIsLost(c: Config, events: seq<Event>, s: State, id: Id)
    requires Reached(c, events, s) && id in s.works
    ensures Settled(s.works[id]) || id in s.queue
    ensures forall i, j :: 0 <= i < j < |s.queue| ==> s.queue[i] != s.queue[j]
  {
    RunKeeps(c, INITIAL, events);
  }

  /** Nothing that happens later changes a settled outcome. */
  lemma {:induction false} OutcomeIsFinal(c: Config, events: seq<Event>, s: State, later: seq<Event>, id: Id)
    requires Reached(c, events, s) && Possible(c, s, later) && id in s.works && Settled(s.works[id])
    ensures id in Run(c, s, later).works && Run(c, s, later).works[id].outcome == s.works[id].outcome
  {
    RunKeeps(c, INITIAL, events);
    RunKeeps(c, s, later);
  }

  /** What was asked for. */
  ghost predicate Carries(w: SendWork, r: Request) {
    w.message == r.message && w.fulfill == r.fulfill && w.timeoutMillis == r.timeoutMillis && w.expectResponse == r.expectResponse
  }

  lemma SendCarries(c: Config, s: State, request: Request, id: Id)
    requires Core(s) && Awake(c, s) && id !in s.works
    ensures var r := Send(c, s, request, id);
      id in r.works && Carries(r.works[id], request) && r.works[id].createdAt == s.now && r.alive
  {
    hide DoNext, Driven, Insert;
    var queued := Insert(Added(s, request, id), id, request.urgent);
    InsertKeeps(s, request, id);
    InsertedQueue(s, request, id);
    if |queued.queue| == 1 {
      DoNextKeeps(c, queued);
    }
  }

  /** A request stays what it was asked as, whatever happens later. */
  lemma {:induction false} RequestIsKept(c: Config, events: seq<Event>, s: State, request: Request, id: Id, later: seq<Event>)
    requires Reached(c, events, s) && Enabled(s, SendCalled(request, id)) && Possible(c, Step(c, s, SendCalled(request, id)), later)
    ensures var r := Run(c, Step(c, s, SendCalled(request, id)), later);
      id in r.works && Carries(r.works[id], request)
  {
    RunKeeps(c, INITIAL, events);
    SendCarries(c, s, request, id);
    StepKeeps(c, s, SendCalled(request, id));
    RunKeeps(c, Step(c, s, SendCalled(request, id)), later);
  }

  /** Nothing is left in the buffer but what the consumer waits for more of. */
  predicate Consumed(c: Config, buffer: Text) {
    match c.consumer
    case None => buffer == []
    case Some(consume) => Drain(consume, buffer) == Drained([], buffer, false)
  }

  lemma ConsumedIs(c: Config, s: State)
    requires Known(s)
    ensures Consumed(c, ConsumeUnsolicited(c, s).buffer)
  {
    if c.consumer.Some? {
      if Drain(c.consumer.value, s.buffer).threw {
        ThrownIsGone(c.consumer.value, s.buffer);
      } else {
        RestWaits(c.consumer.value, s.buffer);
      }
    }
  }

  /** Whatever arrives: unless a request waits for its reply, the consumer gets it, also what is left
      over behind a reply, and without a consumer it is dropped. */
  lemma DataIsConsumed(c: Config, s: State, chunk: Text)
    requires Known(s)
    ensures var r := OnData(c, s, chunk);
      HeadExpects(r) || Consumed(c, r.buffer)
  {
    hide Answered, Claim, ConsumeUnsolicited, Drain;
    var fed := s.(buffer := s.buffer + chunk);
    ConsumedIs(c, fed);
    NothingIsConsumed(c);
    if HeadExpects(fed) {
      var length := Claim(fed.works[fed.queue[0]].fulfill, fed.buffer);
      if length > 0 {
        ConsumedIs(c, Answered(c, fed, length));
      }
    }
  }

  /** What the head claims is its reply, to the character, and the rest is what the next one, or the
      consumer, finds. */
  lemma ReplyIsCut(c: Config, s: State, chunk: Text)
    requires Core(s) && s.connection == Connected && s.socket.Some? && !s.socket.value.ended && HeadExpects(s)
    requires Claim(s.works[s.queue[0]].fulfill, s.buffer + chunk) > 0
    ensures var r, all, w := OnData(c, s, chunk), s.buffer + chunk, s.works[s.queue[0]];
      var cut := Min(Claim(w.fulfill, all), |all|);
      && r.works[s.queue[0]] == w.(outcome := if Settled(w) then w.outcome else Resolved(all[..cut]), deadline := None)
      && r.buffer ==
           if HeadExpects(r) then all[cut..]
           else match c.consumer case None => [] case Some(consume) => Drain(consume, all[cut..]).rest
  {
    hide Claim, InTime;
    var fed := s.(buffer := s.buffer + chunk);
    var length := Claim(fed.works[fed.queue[0]].fulfill, fed.buffer);
    var cut := Min(length, |fed.buffer|);
    var retired := fed.(works := fed.works[fed.queue[0] := Retire(fed.works[fed.queue[0]], Resolved(fed.buffer[..cut]))], buffer := fed.buffer[cut..]);
    assert s.queue[0] !in Shift(retired).queue;
    assert DoNext(c, Shift(retired)).buffer == fed.buffer[cut..];
  }

  lemma NothingIsConsumed(c: Config)
    ensures Consumed(c, [])
  {
  }

  /** A request that is settled has no timer left. */
  lemma NoTimerIsLeft(c: Config, events: seq<Event>, s: State, id: Id)
    requires Reached(c, events, s) && id in s.works && Settled(s.works[id])
    ensures s.works[id].deadline.None?
  {
    RunKeeps(c, INITIAL, events);
  }

  /** With a timeout, a request is settled once twice that time has passed since it was made,
      however often the connection dropped in between. */
  lemma SettledInTime(c: Config, events: seq<Event>, s: State, id: Id)
    requires Reached(c, events, s) && id in s.works && s.works[id].timeoutMillis > 0
    requires s.now > s.works[id].createdAt + 2 * s.works[id].timeoutMillis
    ensures Settled(s.works[id])
  {
    RunKeeps(c, INITIAL, events);
  }

  /** With reconnecting on, something queued on a disconnected socket has a reconnect coming, no
      later than the interval from now, and it connects or empties the queue. */
  lemma NeverStranded(c: Config, events: seq<Event>, s: State)
    requires Reached(c, events, s) && c.retryInterval >= 0
    requires |s.queue| > 0 && s.connection == Disconnected
    ensures s.alive && |s.retries| > 0 && s.now <= s.retries[0] <= s.now + c.retryInterval
    ensures Enabled(s, RetryFired) ==>
      Step(c, s, RetryFired).connection == Connecting || |Step(c, s, RetryFired).queue| == 0
  {
    RunKeeps(c, INITIAL, events);
  }

  /** A connection that drops with requests queued has a reconnect scheduled if and only if
      reconnecting is on. */
  lemma DropSchedulesIff(c: Config, events: seq<Event>, s: State)
    requires Reached(c, events, s) && |s.queue| > 0 && Enabled(s, SocketClosed)
    ensures var dropped := Step(c, s, SocketClosed);
      && dropped.queue == s.queue && dropped.connection == Disconnected
      && (|dropped.retries| > 0 <==> c.retryInterval >= 0)
      && (c.retryInterval >= 0 ==> dropped.retries == s.retries + [s.now + c.retryInterval])
  {
    RunKeeps(c, INITIAL, events);
  }

  /** What can still drive a queue that no reconnect is scheduled for: shutting the socket down or
      resetting it, or a write on the dead socket that reports late. */
  predicate Rouses(e: Event) {
    e.DisconnectCalled? || e.ResetCalled? || e.WriteReturned?
  }

  /** Disconnected, with requests queued and no reconnect scheduled. */
  predicate Asleep(s: State) {
    s.connection == Disconnected && |s.queue| > 0 && |s.retries| == 0
  }

  /** Only these requests have ever been written. */
  predicate WrittenAmong(s: State, ids: set<Id>) {
    forall id <- s.works :: s.works[id].deadlineStarted ==> id in ids
  }

  /** These requests are queued still, one behind the other as they were. */
  ghost predicate StillQueued(queue: seq<Id>, before: seq<Id>) {
    exists k: nat :: QueuedFrom(queue, before, k)
  }

  predicate QueuedFrom(queue: seq<Id>, before: seq<Id>, k: nat) {
    k + |before| <= |queue| && queue[k..k + |before|] == before
  }

  lemma StillQueuedBehind(queue: seq<Id>, before: seq<Id>, id: Id)
    requires StillQueued(queue, before)
    ensures StillQueued([id] + queue, before) && StillQueued(queue + [id], before)
  {
    var k: nat :| QueuedFrom(queue, before, k);
    assert QueuedFrom([id] + queue, before, k + 1) && QueuedFrom(queue + [id], before, k);
  }

  lemma SendStaysAsleep(c: Config, s: State, request: Request, id: Id, ids: set<Id>, before: seq<Id>)
    requires Inv(c, s) && Asleep(s) && WrittenAmong(s, ids) && StillQueued(s.queue, before) && id !in s.works
    ensures var r := Send(c, s, request, id);
      Asleep(r) && WrittenAmong(r, ids) && StillQueued(r.queue, before)
  {
    hide Timely, AllInTime, StillQueued, DoNext;
    InsertedQueue(s, request, id);
    StillQueuedBehind(s.queue, before, id);
    assert s.queue[..0] + [id] + s.queue[0..] == [id] + s.queue;
    assert s.queue[..|s.queue|] + [id] + s.queue[|s.queue|..] == s.queue + [id];
  }

  lemma StaysAsleep(c: Config, s: State, e: Event, ids: set<Id>, before: seq<Id>)
    requires Inv(c, s) && Asleep(s) && WrittenAmong(s, ids) && StillQueued(s.queue, before) && Enabled(s, e) && !Rouses(e)
    ensures var r := Step(c, s, e);
      Asleep(r) && WrittenAmong(r, ids) && StillQueued(r.queue, before)
  {
    hide Send, StillQueued;
    if e.SendCalled? {
      SendStaysAsleep(c, s, e.request, e.id, ids, before);
    }
  }

  /** With reconnecting off nothing else does: however many requests follow, urgent or not, none of
      them is ever written, and what was queued stays so. */
  lemma {:induction false} SleepsOn(c: Config, s: State, later: seq<Event>, ids: set<Id>, before: seq<Id>)
    requires Known(s) && Inv(c, s) && Asleep(s) && WrittenAmong(s, ids) && StillQueued(s.queue, before) && Possible(c, s, later)
    requires forall i :: 0 <= i < |later| ==> !Rouses(later[i])
    ensures var r := Run(c, s, later);
      Asleep(r) && WrittenAmong(r, ids) && StillQueued(r.queue, before)
    decreases |later|
  {
    hide Step, Inv, Asleep, WrittenAmong, StillQueued;
    if |later| > 0 {
      assert !Rouses(later[0]);
      StaysAsleep(c, s, later[0], ids, before);
      StepKeeps(c, s, later[0]);
      SleepsOn(c, Step(c, s, later[0]), later[1..], ids, before);
    }
  }

  /** After a drop without reconnecting: whatever requests, timers and time follow, only what had been
      written before the drop was ever written, and what was queued then stays queued, in its order. */
  lemma {:induction false} SleepsWithoutReconnect(c: Config, events: seq<Event>, s: State, later: seq<Event>)
    requires Reached(c, events, s) && |s.queue| > 0 && Enabled(s, SocketClosed) && c.retryInterval < 0
    requires Possible(c, Step(c, s, SocketClosed), later) && forall i :: 0 <= i < |later| ==> !Rouses(later[i])
    ensures var r := Run(c, Step(c, s, SocketClosed), later);
      && Asleep(r) && StillQueued(r.queue, s.queue)
      && forall id <- r.works :: r.works[id].deadlineStarted ==> id in s.works && s.works[id].deadlineStarted
  {
    RunKeeps(c, INITIAL, events);
    StepKeeps(c, s, SocketClosed);
    DropSchedulesIff(c, events, s);
    var dropped, written := Step(c, s, SocketClosed), set id | id in s.works && s.works[id].deadlineStarted;
    assert QueuedFrom(dropped.queue, s.queue, 0) && WrittenAmong(dropped, written);
    SleepsOn(c, dropped, later, written, s.queue);
  }

  /** The late error of a write that had sent nothing does drive it. */
  lemma LateErrorRouses(c: Config, s: State)
    requires Inv(c, s) && Asleep(s) && !c.openThrows
    requires s.works[s.queue[0]].deadlineStarted && !s.works[s.queue[0]].resent
    ensures Enabled(s, WriteReturned(s.queue[0], Failed(true)))
    ensures Step(c, s, WriteReturned(s.queue[0], Failed(true))).connection == Connecting
  {
  }

  /** So does a request after the queue was shut down or reset. */
  lemma ShutDownRouses(c: Config, s: State, request: Request, id: Id)
    requires Inv(c, s) && Asleep(s) && !c.openThrows && id !in s.works
    ensures Step(c, Step(c, s, DisconnectCalled), SendCalled(request, id)).connection == Connecting
    ensures Step(c, Step(c, s, ResetCalled), SendCalled(request, id)).connection == Connecting
  {
    DisconnectKeeps(c, s);
    assert [] + [id] == [id];
  }
}
