/** Runs of a socket against a server that answers in order: who got which reply. */
module SocketAttribution {
  import opened Text
  import opened SocketQueue
  import opened SocketRuns
  import opened SocketReplies
  import Reply

  /** The socket, what it received since its connection was opened, and for each reply that was
      taken, the number of the connection it came on. */
  datatype World = World(state: State, received: Text, answeredOn: map<Id, nat>)

  const START: World := World(INITIAL, [], map[])

  function Arrived(e: Event): Text {
    if e.DataArrived? then e.chunk else []
  }

  /** The chunk makes an unsettled head resolve. */
  predicate Resolves(s: State, e: Event)
    requires Known(s)
  {
    && e.DataArrived? && s.socket.Some? && HeadExpects(s) && !Settled(s.works[s.queue[0]])
    && Claim(s.works[s.queue[0]].fulfill, s.buffer + e.chunk) > 0
  }

  function Turn(c: Config, w: World, e: Event): (r: World)
    requires Known(w.state) && Enabled(w.state, e)
    ensures Known(r.state)
  {
    var s := w.state;
    var s' := Step(c, s, e);
    World(s', Follow(s, s', w.received + Arrived(e)),
          if Resolves(s, e) then w.answeredOn[s.queue[0] := s.socket.value.number] else w.answeredOn)
  }

  /** The server answers the requests written on a socket in order, each with its reply, cut
      into chunks in any way; callers describe those replies correctly. */
  ghost predicate Honest(replies: Replies, w: World, e: Event)
    requires Known(w.state)
  {
    match e
    case SendCalled(request, id) => Served(replies, id, request.fulfill, request.expectResponse)
    case SocketConnected(listener) => AllSendingsServed(replies, listener)
    case DataArrived(chunk) =>
      w.state.socket.Some? ==>
        w.received + chunk <= Stream(replies, w.state.socket.value.number, w.state.socket.value.sent)
    case _ => true
  }

  ghost predicate AllSendingsServed(replies: Replies, sendings: seq<Sending>) {
    forall i :: 0 <= i < |sendings| ==>
      Served(replies, sendings[i].id, sendings[i].request.fulfill, sendings[i].request.expectResponse)
  }

  /** Whoever was resolved holds the reply to itself, from the connection it was taken on. */
  predicate RightlyAnswered(replies: Replies, w: World) {
    forall id <- w.state.works ::
      w.state.works[id].expectResponse && w.state.works[id].outcome.Resolved? ==>
        id in w.answeredOn && w.state.works[id].outcome.reply == replies(w.answeredOn[id], id)
  }

  ghost predicate Inv(c: Config, replies: Replies, w: World) {
    && SocketRuns.Inv(c, w.state) && OnTrack(replies, w.state, w.received)
    && AllServed(replies, w.state) && RightlyAnswered(replies, w)
  }

  // ---- Every event -----------------------------------------------------------------------------------

  lemma ServedLater(replies: Replies, s: State, s': State)
    requires AllServed(replies, s) && Later(s, s') && s'.works.Keys == s.works.Keys
    ensures AllServed(replies, s')
  {
  }

  lemma SendServed(c: Config, replies: Replies, s: State, request: Request, id: Id)
    requires Core(s) && id !in s.works && AllServed(replies, s)
    requires Served(replies, id, request.fulfill, request.expectResponse)
    ensures AllServed(replies, Send(c, s, request, id))
  {
    var queued := Insert(Added(s, request, id), id, request.urgent);
    InsertKeeps(s, request, id);
    assert AllServed(replies, queued);
    if |queued.queue| == 1 {
      DoNextKeeps(c, queued);
      ServedLater(replies, queued, DoNext(c, queued));
    }
  }

  lemma {:induction false} SendAllServed(c: Config, replies: Replies, s: State, sendings: seq<Sending>)
    requires Core(s) && Awake(c, s) && s.alive && Fresh(s, sendings) && AllServed(replies, s)
    requires AllSendingsServed(replies, sendings)
    ensures AllServed(replies, SendAll(c, s, sendings))
    decreases |sendings|
  {
    if |sendings| > 0 {
      var first := sendings[0];
      SendKeeps(c, s, first.request, first.id);
      SendServed(c, replies, s, first.request, first.id);
      SendAllServed(c, replies, Send(c, s, first.request, first.id), sendings[1..]);
    }
  }

  lemma ConnectServed(c: Config, replies: Replies, s: State, listener: seq<Sending>)
    requires SocketRuns.Inv(c, s) && s.connection == Connecting && Fresh(s, listener)
    requires AllServed(replies, s) && AllSendingsServed(replies, listener)
    ensures AllServed(replies, OnConnect(c, s, listener))
  {
    var connected := s.(connection := Connected);
    SendAllKeeps(c, connected, listener);
    SendAllServed(c, replies, connected, listener);
    var sent := SendAll(c, connected, listener);
    DoNextKeeps(c, sent);
    ServedLater(replies, sent, DoNext(c, sent));
  }

  /** Only sending makes new works. */
  lemma StepKeys(c: Config, s: State, e: Event)
    requires Known(s) && Enabled(s, e) && !e.SendCalled? && !e.SocketConnected?
    ensures Step(c, s, e).works.Keys == s.works.Keys
  {
  }

  lemma StepServed(c: Config, replies: Replies, w: World, e: Event)
    requires Inv(c, replies, w) && Enabled(w.state, e) && Honest(replies, w, e)
    ensures AllServed(replies, Step(c, w.state, e))
  {
    match e
    case SendCalled(request, id) => SendServed(c, replies, w.state, request, id);
    case SocketConnected(listener) => ConnectServed(c, replies, w.state, listener);
    case _ =>
      StepKeeps(c, w.state, e);
      StepKeys(c, w.state, e);
      ServedLater(replies, w.state, Step(c, w.state, e));
  }

  /** A dropped connection resolves nothing. */
  lemma RetryQuiet(c: Config, s: State)
    requires Known(s)
    ensures Quiet(s, RetryToConnect(c, s)) && RetryToConnect(c, s).socket.None?
  {
  }

  lemma FailAllQuiet(s: State)
    requires Known(s)
    ensures Quiet(s, FailAll(s))
  {
  }

  lemma RetireQuiet(s: State, id: Id, outcome: Outcome)
    requires Known(s) && id in s.works && (s.works[id].expectResponse ==> !outcome.Resolved?)
    ensures Quiet(s, s.(works := s.works[id := Retire(s.works[id], outcome)]))
  {
  }

  lemma FailedQuiet(c: Config, s: State, id: Id)
    requires SocketRuns.Inv(c, s) && id in s.works
    ensures var rest := if IsHead(s, id) then Shift(s) else s;
      var r := RetryToConnect(c, rest.(works := rest.works[id := Retire(s.works[id], Rejected)]));
      Quiet(s, r) && r.socket.None?
  {
    RetireQuiet(s, id, Rejected);
    var retired := s.(works := s.works[id := Retire(s.works[id], Rejected)]);
    var rest := if IsHead(s, id) then Shift(retired) else retired;
    RetryQuiet(c, rest);
    assert Quiet(s, rest);
    DoDisconnectLater(rest);
    QuietAgain(s, rest, RetryToConnect(c, rest));
  }

  lemma DoDisconnectLater(s: State)
    requires Known(s)
    ensures Later(s, DoDisconnect(s))
  {
  }

  lemma ResendTracks(c: Config, replies: Replies, s: State, received: Text, id: Id)
    requires SocketRuns.Inv(c, s) && IsHead(s, id) && s.alive && OnTrack(replies, s, received)
    ensures var r := Connect(c, DoDisconnect(s.(works := s.works[id := s.works[id].(resent := true)])));
      OnTrack(replies, r, Follow(s, r, received)) && Quiet(s, r)
  {
    var marked := s.(works := s.works[id := s.works[id].(resent := true)]);
    assert Core(marked);
    assert HeadWritten(marked) <==> HeadWritten(s);
    ReconnectTracks(c, replies, marked, received);
  }

  lemma RetireTracks(replies: Replies, s: State, received: Text, id: Id, outcome: Outcome)
    requires Core(s) && id in s.works && OnTrack(replies, s, received) && !outcome.Pending?
    requires s.works[id].expectResponse ==> !outcome.Resolved?
    ensures var r := s.(works := s.works[id := Retire(s.works[id], outcome)]);
      OnTrack(replies, r, received) && Quiet(s, r)
  {
    RetireQuiet(s, id, outcome);
    assert HeadWritten(s.(works := s.works[id := Retire(s.works[id], outcome)])) <==> HeadWritten(s);
  }

  lemma SentTracks(c: Config, replies: Replies, s: State, received: Text, id: Id)
    requires SocketRuns.Inv(c, s) && id in s.works && !s.works[id].expectResponse
    requires OnTrack(replies, s, received) && AllServed(replies, s)
    ensures var r := OnWritten(c, s, id, Sent);
      OnTrack(replies, r, Follow(s, r, received)) && Quiet(s, r)
  {
    var retired := s.(works := s.works[id := Retire(s.works[id], Resolved([]))]);
    RetireTracks(replies, s, received, id, Resolved([]));
    if IsHead(s, id) {
      RetireKeeps(s, id, Resolved([]));
      ShiftKeeps(retired);
      assert Served(replies, id, s.works[id].fulfill, false);
      SilentShiftTracks(replies, retired, received);
      SentShiftTracks(c, replies, s, Shift(retired), received);
    }
  }

  lemma SentShiftTracks(c: Config, replies: Replies, s: State, shifted: State, received: Text)
    requires Core(shifted) && OnTrack(replies, shifted, received) && LiveHead(shifted) && shifted.alive
    requires Quiet(s, shifted) && s.socket == shifted.socket
    ensures var r := DoNext(c, shifted);
      OnTrack(replies, r, Follow(s, r, received)) && Quiet(s, r)
  {
    DoNextTracks(c, replies, shifted, received);
    DoNextKeeps(c, shifted);
    QuietAgain(s, shifted, DoNext(c, shifted));
  }

  /** A head that gets no reply leaves without one. */
  lemma SilentShiftTracks(replies: Replies, s: State, received: Text)
    requires Core(s) && |s.queue| > 0 && OnTrack(replies, s, received)
    requires forall number: nat :: replies(number, s.queue[0]) == []
    ensures OnTrack(replies, Shift(s), received) && LiveHead(Shift(s))
  {
    assert !HeadWritten(Shift(s));
    if HeadWritten(s) {
      ShiftTracks(replies, s, received);
      assert received + [] == received;
    }
  }

  lemma DisconnectTracks(s: State)
    requires Known(s)
    ensures Quiet(s, Disconnect(s)) && Disconnect(s).socket.None?
  {
    var dead := s.(alive := false);
    FailAllQuiet(DoDisconnect(dead));
    DoDisconnectQuiet(dead);
  }

  lemma ResetTracks(c: Config, s: State)
    requires Known(s)
    ensures Quiet(s, Reset(c, s)) && Reset(c, s).socket.None?
  {
    FailAllQuiet(s);
    RetryQuiet(c, FailAll(s));
    DoDisconnectLater(FailAll(s));
    QuietAgain(s, FailAll(s), Reset(c, s));
  }

  lemma RetryFiredTracks(c: Config, replies: Replies, s: State, received: Text)
    requires SocketRuns.Inv(c, s) && OnTrack(replies, s, received) && |s.retries| > 0
    ensures var s' := RetryFires(c, s);
      OnTrack(replies, s', Follow(s, s', received)) && Quiet(s, s')
  {
    if s.alive && s.connection == Disconnected {
      ConnectTracks(c, replies, s.(retries := s.retries[1..]));
    }
  }

  /** Everything but data. */
  lemma StepTracks(c: Config, replies: Replies, s: State, received: Text, e: Event)
    requires SocketRuns.Inv(c, s) && OnTrack(replies, s, received) && AllServed(replies, s)
    requires Enabled(s, e) && !e.DataArrived?
    ensures var s' := Step(c, s, e);
      OnTrack(replies, s', Follow(s, s', received)) && Quiet(s, s')
  {
    match e
    case SendCalled(request, id) => SendAloneTracks(c, replies, s, received, request, id);
    case DisconnectCalled => DisconnectTracks(s);
    case ResetCalled => ResetTracks(c, s);
    case RetryFired => RetryFiredTracks(c, replies, s, received);
    case SocketConnected(listener) => OnConnectTracks(c, replies, s, received, listener);
    case SocketClosed => RetryQuiet(c, s);
    case PeerEnded =>
    case WriteReturned(id, result) => WrittenTracks(c, replies, s, received, id, result);
    case TimerFired(id) => RetireTracks(replies, s, received, id, Rejected);
    case TimePassed(until) =>
  }

  lemma WrittenTracks(c: Config, replies: Replies, s: State, received: Text, id: Id, result: WriteResult)
    requires SocketRuns.Inv(c, s) && OnTrack(replies, s, received) && AllServed(replies, s) && id in s.works
    ensures var s' := OnWritten(c, s, id, result);
      OnTrack(replies, s', Follow(s, s', received)) && Quiet(s, s')
  {
    match result
    case Failed(nothingSent) =>
      if nothingSent && !s.works[id].resent && IsHead(s, id) && s.alive {
        ResendTracks(c, replies, s, received, id);
      } else {
        FailedQuiet(c, s, id);
      }
    case Sent =>
      if !s.works[id].expectResponse {
        SentTracks(c, replies, s, received, id);
      }
  }

  // ---- Data -------------------------------------------------------------------------------------------------

  /** Outcomes after the head took its reply. */
  lemma TakenOutcomes(c: Config, s: State, id: Id)
    requires Known(s) && |s.queue| > 0 && Core(Shift(Taken(s))) && s.alive
    requires Quiet(Shift(Taken(s)), DoNext(c, Shift(Taken(s))))
    requires id in s.works
    ensures var w, w' := s.works[id], DoNext(c, Shift(Taken(s))).works[id];
      && w'.expectResponse == w.expectResponse
      && (id != s.queue[0] ==> w'.outcome == w.outcome || (w'.outcome.Resolved? ==> !w.expectResponse))
      && (id == s.queue[0] ==> w'.outcome == if Settled(w) then w.outcome else Resolved(s.buffer))
  {
    DoNextKeeps(c, Shift(Taken(s)));
  }

  lemma WholeReplyTaken(c: Config, replies: Replies, w: World, chunk: Text)
    requires Inv(c, replies, w) && w.state.connection == Connected && HeadExpects(w.state)
    requires Honest(replies, w, DataArrived(chunk))
    requires w.state.buffer + chunk == replies(w.state.socket.value.number, w.state.queue[0])
    ensures var w' := Turn(c, w, DataArrived(chunk));
      OnTrack(replies, w'.state, w'.received) && RightlyAnswered(replies, w')
  {
    hide OnData, DoNext, Taken, Retire;
    var s := w.state;
    DataIsPartOrWhole(c, replies, s, w.received, chunk);
    var fed := s.(buffer := s.buffer + chunk);
    var past := Stream(replies, s.socket.value.number, Past(s));
    AnsweredTracks(c, replies, fed, past);
    assert past + fed.buffer == w.received + chunk;
    RightlyTaken(c, replies, w, chunk, fed);
  }

  lemma RightlyTaken(c: Config, replies: Replies, w: World, chunk: Text, fed: State)
    requires RightlyAnswered(replies, w) && SocketRuns.Inv(c, w.state) && w.state.connection == Connected
    requires HeadExpects(w.state) && fed == w.state.(buffer := w.state.buffer + chunk)
    requires fed.buffer == replies(fed.socket.value.number, fed.queue[0])
    requires Claim(fed.works[fed.queue[0]].fulfill, fed.buffer) > 0
    requires OnData(c, w.state, chunk) == DoNext(c, Shift(Taken(fed)))
    requires Core(Shift(Taken(fed))) && Quiet(Shift(Taken(fed)), DoNext(c, Shift(Taken(fed))))
    ensures RightlyAnswered(replies, Turn(c, w, DataArrived(chunk)))
  {
    hide OnData, DoNext;
    var w' := Turn(c, w, DataArrived(chunk));
    forall id | id in w'.state.works && w'.state.works[id].expectResponse && w'.state.works[id].outcome.Resolved?
      ensures id in w'.answeredOn && w'.state.works[id].outcome.reply == replies(w'.answeredOn[id], id)
    {
      TakenOutcomes(c, fed, id);
    }
  }

  lemma DataTracks(c: Config, replies: Replies, w: World, chunk: Text)
    requires Inv(c, replies, w) && w.state.connection == Connected && Honest(replies, w, DataArrived(chunk))
    ensures var w' := Turn(c, w, DataArrived(chunk));
      OnTrack(replies, w'.state, w'.received) && RightlyAnswered(replies, w')
  {
    var s := w.state;
    if !HeadExpects(s) {
      NothingUnclaimed(c, replies, s, w.received, chunk);
      assert w.received + chunk == w.received;
    } else {
      DataIsPartOrWhole(c, replies, s, w.received, chunk);
      if s.buffer + chunk == replies(s.socket.value.number, s.queue[0]) {
        WholeReplyTaken(c, replies, w, chunk);
      }
    }
  }

  /** Every event keeps the invariant. */
  lemma TurnKeeps(c: Config, replies: Replies, w: World, e: Event)
    requires Inv(c, replies, w) && Enabled(w.state, e) && Honest(replies, w, e)
    ensures Inv(c, replies, Turn(c, w, e))
  {
    StepKeeps(c, w.state, e);
    StepServed(c, replies, w, e);
    if e.DataArrived? {
      DataTracks(c, replies, w, e.chunk);
    } else {
      StepTracks(c, replies, w.state, w.received, e);
      assert w.received + [] == w.received;
      StillRight(replies, w, Turn(c, w, e));
    }
  }

  lemma StillRight(replies: Replies, w: World, w': World)
    requires RightlyAnswered(replies, w) && Quiet(w.state, w'.state) && Later(w.state, w'.state)
    requires w'.answeredOn == w.answeredOn
    ensures RightlyAnswered(replies, w')
  {
  }

  // ---- Over every run -----------------------------------------------------------------------------------------

  ghost predicate HonestRun(c: Config, replies: Replies, w: World, events: seq<Event>)
    requires Known(w.state)
    decreases |events|
  {
    |events| == 0 ||
      (Enabled(w.state, events[0]) && Honest(replies, w, events[0]) && HonestRun(c, replies, Turn(c, w, events[0]), events[1..]))
  }

  ghost function After(c: Config, replies: Replies, w: World, events: seq<Event>): (r: World)
    requires Known(w.state) && HonestRun(c, replies, w, events)
    ensures Known(r.state)
    decreases |events|
  {
    if |events| == 0 then w else After(c, replies, Turn(c, w, events[0]), events[1..])
  }

  lemma {:induction false} AfterKeeps(c: Config, replies: Replies, w: World, events: seq<Event>)
    requires Inv(c, replies, w) && HonestRun(c, replies, w, events)
    ensures Inv(c, replies, After(c, replies, w, events))
    decreases |events|
  {
    if |events| > 0 {
      TurnKeeps(c, replies, w, events[0]);
      AfterKeeps(c, replies, Turn(c, w, events[0]), events[1..]);
    }
  }

  ghost predicate Reached(c: Config, replies: Replies, events: seq<Event>, w: World) {
    HonestRun(c, replies, START, events) && w == After(c, replies, START, events)
  }

  /** Whatever was sent, timed out, dropped, resent or cut into pieces: a request that resolved
      holds the reply the server made for it, and for no other request. */
  lemma EachReplyReachesItsOwner(c: Config, replies: Replies, events: seq<Event>, w: World, id: Id)
    requires Reached(c, replies, events, w)
    requires id in w.state.works && w.state.works[id].expectResponse && w.state.works[id].outcome.Resolved?
    ensures id in w.answeredOn && w.state.works[id].outcome.reply == replies(w.answeredOn[id], id)
  {
    AfterKeeps(c, replies, START, events);
  }

  /** No byte is lost, doubled or left over: what came on the open socket is the replies to the
      requests before the head, in the order written, and a part of the head's. */
  lemma EveryByteIsOwned(c: Config, replies: Replies, events: seq<Event>, w: World)
    requires Reached(c, replies, events, w) && w.state.socket.Some?
    ensures var s, link := w.state, w.state.socket.value;
      && w.received == Stream(replies, link.number, Past(s)) + s.buffer
      && (HeadWritten(s) ==> link.sent == Past(s) + [s.queue[0]] && Partial(s.buffer, replies(link.number, s.queue[0])))
      && (!HeadWritten(s) ==> link.sent == Past(s) && s.buffer == [])
  {
    AfterKeeps(c, replies, START, events);
  }

  lemma {:induction false} DoNextOnlyDrops(c: Config, s: State, id: Id)
    requires Known(s) && id in DoNext(c, s).queue
    ensures id in s.queue
  {
  }

  /** A chunk concerns the head alone. Completing its reply retires it: it resolves, or, if it
      had timed out, eats the late reply. No other request is resolved, and the consumer of
      unclaimed data gets nothing. */
  lemma DataConcernsTheHead(c: Config, replies: Replies, events: seq<Event>, w: World, chunk: Text)
    requires Reached(c, replies, events, w)
    requires w.state.connection == Connected && Honest(replies, w, DataArrived(chunk))
    ensures w.state.socket.Some?
    ensures var s, s' := w.state, OnData(c, w.state, chunk);
      if !HeadExpects(s) then chunk == [] && s' == s
      else
        var reply := replies(s.socket.value.number, s.queue[0]);
        && s.buffer + chunk <= reply
        && (s.buffer + chunk != reply ==> s' == s.(buffer := s.buffer + chunk))
        && (s.buffer + chunk == reply ==>
              && s.queue[0] !in s'.queue && s'.buffer == []
              && s'.works[s.queue[0]].outcome == (if Settled(s.works[s.queue[0]]) then s.works[s.queue[0]].outcome else Resolved(reply))
              && forall id <- s.works :: id != s.queue[0] && s.works[id].expectResponse && s'.works[id].outcome.Resolved? ==>
                   s'.works[id].outcome == s.works[id].outcome)
  {
    AfterKeeps(c, replies, START, events);
    var s := w.state;
    if !HeadExpects(s) {
      NothingUnclaimed(c, replies, s, w.received, chunk);
    } else {
      DataIsPartOrWhole(c, replies, s, w.received, chunk);
      if s.buffer + chunk == replies(s.socket.value.number, s.queue[0]) {
        WholeReplyConcerns(c, replies, w, chunk);
      }
    }
  }

  lemma WholeReplyConcerns(c: Config, replies: Replies, w: World, chunk: Text)
    requires Inv(c, replies, w) && w.state.connection == Connected && HeadExpects(w.state)
    requires Honest(replies, w, DataArrived(chunk))
    requires w.state.buffer + chunk == replies(w.state.socket.value.number, w.state.queue[0])
    ensures var s, s' := w.state, OnData(c, w.state, chunk);
      && s.queue[0] !in s'.queue && s'.buffer == []
      && s'.works[s.queue[0]].outcome
        == (if Settled(s.works[s.queue[0]]) then s.works[s.queue[0]].outcome else Resolved(s.buffer + chunk))
      && forall id <- s.works :: id != s.queue[0] && s.works[id].expectResponse && s'.works[id].outcome.Resolved? ==>
           s'.works[id].outcome == s.works[id].outcome
  {
    var s := w.state;
    var fed := s.(buffer := s.buffer + chunk);
    WholeIsTaken(c, replies, w, chunk, fed);
    hide OnData, DoNext, Inv, Honest, Core, Quiet, Taken;
    forall id | id in s.works
      ensures id != s.queue[0] && s.works[id].expectResponse && OnData(c, s, chunk).works[id].outcome.Resolved? ==>
           OnData(c, s, chunk).works[id].outcome == s.works[id].outcome
    {
      TakenOutcomes(c, fed, id);
    }
    TakenOutcomes(c, fed, s.queue[0]);
  }

  /** What a whole reply leaves: the head taken off, and the queue driven on. */
  lemma WholeIsTaken(c: Config, replies: Replies, w: World, chunk: Text, fed: State)
    requires Inv(c, replies, w) && w.state.connection == Connected && HeadExpects(w.state)
    requires Honest(replies, w, DataArrived(chunk)) && fed == w.state.(buffer := w.state.buffer + chunk)
    requires fed.buffer == replies(w.state.socket.value.number, w.state.queue[0])
    ensures Core(Shift(Taken(fed))) && Quiet(Shift(Taken(fed)), DoNext(c, Shift(Taken(fed)))) && fed.alive
    ensures OnData(c, w.state, chunk) == DoNext(c, Shift(Taken(fed)))
    ensures OnData(c, w.state, chunk).buffer == [] && w.state.queue[0] !in OnData(c, w.state, chunk).queue
  {
    hide DoNext;
    var s := w.state;
    DataIsPartOrWhole(c, replies, s, w.received, chunk);
    AnsweredTracks(c, replies, fed, Stream(replies, s.socket.value.number, Past(s)));
    assert OnData(c, s, chunk) == DoNext(c, Shift(Taken(fed)));
    if s.queue[0] in DoNext(c, Shift(Taken(fed))).queue {
      DoNextOnlyDrops(c, Shift(Taken(fed)), s.queue[0]);
      assert false;
    }
  }

  // ---- Redis replies --------------------------------------------------------------------------------------------

  /** The requests of the Redis client meet the assumption: flat replies are framed. */
  lemma FlatRepliesAreFramed(r: Reply.FlatReply)
    requires Reply.WellFormed(r)
    ensures Framed(ByFunction(Reply.Fulfill), Reply.Print(r))
  {
    Reply.FramesFlatReply(r, []);
    assert Reply.Print(r) + [] == Reply.Print(r);
    forall cut | 0 <= cut < |Reply.Print(r)|
      ensures Reply.Fulfill(Reply.Print(r)[..cut]) <= 0
    {
      Reply.ProperPrefixWaits(r, cut);
    }
    assert Reply.Lines(r) != [];
  }

  /** So does a request for so many characters, and for no other number. */
  lemma LengthIsFramed(length: int, reply: Text)
    requires |reply| > 0
    ensures Framed(ByLength(length), reply) <==> length == |reply|
  {
  }

  /** And one for what a pattern matches, exactly if its first group is as long as the reply, and is
      missing or empty for every beginning of it. */
  lemma PatternIsFramed(firstGroup: Text -> Option<Text>, reply: Text)
    requires |reply| > 0
    ensures Framed(ByRegex(firstGroup), reply) <==>
      && firstGroup(reply).Some? && |firstGroup(reply).value| == |reply|
      && forall cut :: 0 <= cut < |reply| ==> firstGroup(reply[..cut]).None? || firstGroup(reply[..cut]).value == []
  {
  }
}
