/** Whose reply is whose: replies carry no request id, yet over every run against a server that
    answers in order, each reply reaches exactly the request it answers. */
module SocketReplies {
  import opened Text
  import opened Unsolicited
  import opened SocketQueue
  import opened SocketRuns

  /** What the server answers on a given socket to a given request. */
  type Replies = (nat, Id) -> Text

  /** The request takes the reply whole, and waits on every part of it. */
  ghost predicate Framed(fulfill: Fulfill, reply: Text) {
    && |reply| > 0 && Claim(fulfill, reply) == |reply|
    && forall cut :: 0 <= cut < |reply| ==> Claim(fulfill, reply[..cut]) <= 0
  }

  /** On every socket the server sends one framed reply, or nothing if none is expected. */
  ghost predicate Served(replies: Replies, id: Id, fulfill: Fulfill, expectResponse: bool) {
    forall number: nat ::
      if expectResponse then Framed(fulfill, replies(number, id)) else replies(number, id) == []
  }

  ghost predicate AllServed(replies: Replies, s: State) {
    forall id <- s.works :: Served(replies, id, s.works[id].fulfill, s.works[id].expectResponse)
  }

  /** Everything the server sends in answer to these requests. */
  function Stream(replies: Replies, number: nat, ids: seq<Id>): Text {
    if |ids| == 0 then [] else Stream(replies, number, ids[..|ids| - 1]) + replies(number, ids[|ids| - 1])
  }

  /** The requests on this socket whose replies are complete. */
  function Past(s: State): seq<Id>
    requires Known(s) && s.socket.Some?
  {
    var sent := s.socket.value.sent;
    if HeadWritten(s) && |sent| > 0 then sent[..|sent| - 1] else sent
  }

  /** A part of the reply that is not yet claimed. */
  predicate Partial(buffer: Text, reply: Text) {
    buffer <= reply && (|buffer| == |reply| ==> |reply| == 0)
  }

  /** Everything received on this socket is the complete replies to past requests, in order,
      and in the buffer a part of the reply to the head. */
  predicate OnTrack(replies: Replies, s: State, received: Text)
    requires Known(s)
  {
    match s.socket
    case None => received == []
    case Some(link) =>
      && link.number < s.sockets
      && received == Stream(replies, link.number, Past(s)) + s.buffer
      && (if HeadWritten(s) then
            |link.sent| > 0 && link.sent[|link.sent| - 1] == s.queue[0] && Partial(s.buffer, replies(link.number, s.queue[0]))
          else s.buffer == [])
  }

  /** A head on the wire is still waited for. */
  predicate LiveHead(s: State)
    requires Known(s)
  {
    HeadWritten(s) ==> !Settled(s.works[s.queue[0]])
  }

  /** What was received on the socket now open, given what was received on the one before. */
  function Follow(s: State, s': State, received: Text): Text {
    if s.socket.Some? && s'.socket.Some? && s.socket.value.number == s'.socket.value.number then received else []
  }

  /** No reply was taken: a resolved request that expects a reply was resolved before. */
  ghost predicate Quiet(s: State, s': State) {
    forall id <- s'.works :: s'.works[id].expectResponse && s'.works[id].outcome.Resolved? ==>
      id in s.works && s.works[id].outcome == s'.works[id].outcome
  }

  lemma QuietAgain(a: State, b: State, d: State)
    requires Quiet(a, b) && Quiet(b, d) && Later(b, d)
    ensures Quiet(a, d)
  {
  }

  lemma {:induction false} StreamMore(replies: Replies, number: nat, ids: seq<Id>, id: Id)
    ensures Stream(replies, number, ids + [id]) == Stream(replies, number, ids) + replies(number, id)
  {
    assert (ids + [id])[..|ids|] == ids;
  }

  // ---- The pieces stay on track -------------------------------------------------------------------

  lemma ConnectTracks(c: Config, replies: Replies, s: State)
    requires Core(s) && s.connection == Disconnected
    ensures OnTrack(replies, Connect(c, s), []) && LiveHead(Connect(c, s)) && Quiet(s, Connect(c, s))
    ensures Connect(c, s).works.Keys == s.works.Keys
  {
  }

  lemma DoDisconnectQuiet(s: State)
    requires Known(s)
    ensures Quiet(s, DoDisconnect(s)) && DoDisconnect(s).works.Keys == s.works.Keys
    ensures OneOnWire(s) ==> !HeadWritten(DoDisconnect(s))
  {
  }

  lemma WriteHeadTracks(replies: Replies, s: State, received: Text)
    requires Core(s) && |s.queue| > 0 && s.connection == Connected && !Settled(s.works[s.queue[0]])
    requires OnTrack(replies, s, received) && !HeadWritten(s)
    ensures OnTrack(replies, WriteHead(s), received) && LiveHead(WriteHead(s)) && Quiet(s, WriteHead(s))
  {
    var sent := s.socket.value.sent;
    var written := WriteHead(s);
    assert HeadWritten(written);
    assert (sent + [s.queue[0]])[..|sent|] == sent;
    assert Past(written) == sent;
  }

  lemma DropSettledTracks(replies: Replies, s: State, received: Text)
    requires Core(s) && OnTrack(replies, s, received) && LiveHead(s)
    ensures OnTrack(replies, DropSettled(s), received) && Quiet(s, DropSettled(s)) && LiveHead(DropSettled(s))
    ensures HeadWritten(s) ==> DropSettled(s) == s
  {
    var k := FirstUnsettled(s.queue, s.works, 0);
    if HeadWritten(s) {
      assert s.queue[0..] == s.queue;
    } else {
      assert !HeadWritten(DropSettled(s));
    }
  }

  lemma ReconnectTracks(c: Config, replies: Replies, s: State, received: Text)
    requires Core(s) && OnTrack(replies, s, received)
    ensures var r := Connect(c, DoDisconnect(s));
      OnTrack(replies, r, Follow(s, r, received)) && LiveHead(r) && Quiet(s, r) && Onward(s, r)
  {
    var d := DoDisconnect(s);
    DoDisconnectKeeps(s);
    DoDisconnectQuiet(s);
    ConnectTracks(c, replies, d);
    ConnectKeeps(c, d);
    QuietAgain(s, d, Connect(c, d));
  }

  lemma ResumeTracks(replies: Replies, s: State, received: Text)
    requires Core(s) && s.connection == Connected && OnTrack(replies, s, received) && LiveHead(s)
    ensures var d := DropSettled(s);
      var r := if |d.queue| == 0 || HeadWritten(d) then d else WriteHead(d);
      OnTrack(replies, r, received) && LiveHead(r) && Quiet(s, r)
  {
    DropSettledKeeps(s);
    DropSettledTracks(replies, s, received);
    var d := DropSettled(s);
    if |d.queue| > 0 && !HeadWritten(d) {
      WriteHeadTracks(replies, d, received);
      WriteHeadKeeps(d);
      QuietAgain(s, d, WriteHead(d));
    }
  }

  lemma DoNextTracks(c: Config, replies: Replies, s: State, received: Text)
    requires Core(s) && OnTrack(replies, s, received) && LiveHead(s)
    ensures var r := DoNext(c, s);
      OnTrack(replies, r, Follow(s, r, received)) && LiveHead(r) && Quiet(s, r) && Onward(s, r)
  {
    if s.connection == Connecting {
    } else if s.connection == Disconnected {
      ConnectTracks(c, replies, s);
    } else if s.socket.value.ended {
      ReconnectTracks(c, replies, s, received);
    } else {
      ResumeTracks(replies, s, received);
    }
  }

  lemma InsertTracks(replies: Replies, s: State, received: Text, request: Request, id: Id)
    requires Core(s) && id !in s.works && OnTrack(replies, s, received)
    ensures var r := Insert(Added(s, request, id), id, request.urgent);
      && OnTrack(replies, r, received) && (LiveHead(s) ==> LiveHead(r)) && Quiet(s, r)
      && (|s.queue| == 0 ==> LiveHead(r))
  {
    var at := Place(s, request.urgent);
    InsertKeeps(s, request, id);
    InsertedQueue(s, request, id);
    InsertedAt(s.queue, at, id);
    var r := Insert(Added(s, request, id), id, request.urgent);
    assert HeadWritten(r) <==> HeadWritten(s);
  }

  lemma SendTracks(c: Config, replies: Replies, s: State, received: Text, request: Request, id: Id)
    requires Core(s) && id !in s.works && OnTrack(replies, s, received) && LiveHead(s)
    ensures var r := Send(c, s, request, id);
      OnTrack(replies, r, Follow(s, r, received)) && LiveHead(r) && Quiet(s, r) && Onward(s, r)
  {
    var queued := Insert(Added(s, request, id), id, request.urgent);
    InsertKeeps(s, request, id);
    InsertTracks(replies, s, received, request, id);
    if |queued.queue| == 1 {
      DoNextTracks(c, replies, queued, received);
      DoNextKeeps(c, queued);
      QuietAgain(s, queued, DoNext(c, queued));
    }
  }

  /** A top-level send does not need a live head: it resumes the queue only when it is alone. */
  lemma SendAloneTracks(c: Config, replies: Replies, s: State, received: Text, request: Request, id: Id)
    requires Core(s) && id !in s.works && OnTrack(replies, s, received)
    ensures var r := Send(c, s, request, id);
      OnTrack(replies, r, Follow(s, r, received)) && Quiet(s, r)
  {
    if |s.queue| == 0 {
      SendTracks(c, replies, s, received, request, id);
    } else {
      InsertTracks(replies, s, received, request, id);
      InsertKeeps(s, request, id);
      assert |Insert(Added(s, request, id), id, request.urgent).queue| == |s.queue| + 1 by {
        InsertedQueue(s, request, id);
      }
    }
  }

  lemma {:induction false} SendAllTracks(
    c: Config, replies: Replies, s: State, received: Text, sendings: seq<Sending>)
    requires Core(s) && Awake(c, s) && s.alive && Fresh(s, sendings) && OnTrack(replies, s, received) && LiveHead(s)
    ensures var r := SendAll(c, s, sendings);
      OnTrack(replies, r, Follow(s, r, received)) && LiveHead(r) && Quiet(s, r) && Onward(s, r)
    decreases |sendings|
  {
    if |sendings| > 0 {
      var request, id := sendings[0].request, sendings[0].id;
      var next := Send(c, s, request, id);
      SendKeeps(c, s, request, id);
      SendTracks(c, replies, s, received, request, id);
      SendAllTracks(c, replies, next, Follow(s, next, received), sendings[1..]);
      SendAllKeeps(c, next, sendings[1..]);
      var r := SendAll(c, s, sendings);
      FollowAgain(s, next, r, received);
      QuietAgain(s, next, r);
    }
  }

  lemma OnConnectTracks(c: Config, replies: Replies, s: State, received: Text, listener: seq<Sending>)
    requires Driven(c, s) && s.connection == Connecting && Fresh(s, listener) && OnTrack(replies, s, received)
    ensures var r := OnConnect(c, s, listener);
      OnTrack(replies, r, Follow(s, r, received)) && Quiet(s, r)
  {
    var connected := s.(connection := Connected);
    SendAllTracks(c, replies, connected, received, listener);
    SendAllKeeps(c, connected, listener);
    var sent := SendAll(c, connected, listener);
    DoNextTracks(c, replies, sent, Follow(connected, sent, received));
    DoNextKeeps(c, sent);
    FollowAgain(s, sent, DoNext(c, sent), received);
    QuietAgain(s, sent, DoNext(c, sent));
  }

  /** A head leaves with its reply; what follows starts on an empty buffer. */
  lemma ShiftTracks(replies: Replies, s: State, received: Text)
    requires Core(s) && HeadWritten(s) && s.buffer == [] && OnTrack(replies, s, received)
    ensures !HeadWritten(Shift(s)) && LiveHead(Shift(s))
    ensures OnTrack(replies, Shift(s), received + replies(s.socket.value.number, s.queue[0]))
  {
    var link := s.socket.value;
    assert link.sent == Past(s) + [s.queue[0]];
    StreamMore(replies, link.number, Past(s), s.queue[0]);
    assert !HeadWritten(Shift(s));
    assert Past(Shift(s)) == link.sent;
  }

  function Taken(s: State): State
    requires Known(s) && |s.queue| > 0
  {
    s.(works := s.works[s.queue[0] := Retire(s.works[s.queue[0]], Resolved(s.buffer))], buffer := [])
  }

  lemma TakenTracks(replies: Replies, s: State, received: Text)
    requires Core(s) && HeadWritten(s) && OnTrack(replies, s.(buffer := []), received)
    ensures var taken := Taken(s);
      Core(taken) && HeadWritten(taken) && OnTrack(replies, taken, received) && Settled(taken.works[s.queue[0]])
  {
    RetireKeeps(s, s.queue[0], Resolved(s.buffer));
  }

  /** The head took its whole reply, and nothing is left over. */
  lemma AnsweredTracks(c: Config, replies: Replies, s: State, received: Text)
    requires Driven(c, s) && s.connection == Connected && |s.queue| > 0
    requires OnTrack(replies, s.(buffer := []), received)
    requires s.buffer == replies(s.socket.value.number, s.queue[0])
    ensures var r := Answered(c, s, |s.buffer|);
      OnTrack(replies, r, Follow(s, r, received + s.buffer)) && r.buffer == []
    ensures Answered(c, s, |s.buffer|) == DoNext(c, Shift(Taken(s)))
    ensures Core(Shift(Taken(s))) && Quiet(Shift(Taken(s)), Answered(c, s, |s.buffer|))
  {
    assert s.buffer[..|s.buffer|] == s.buffer && s.buffer[|s.buffer|..] == [];
    var taken := Taken(s);
    assert Core(s) && HeadWritten(s) && Known(taken) && Known(Shift(taken)) && taken.buffer == Shift(taken).buffer == [];
    hide DoNext, OnTrack, Core, Driven, Retire;
    TakenTracks(replies, s, received);
    ShiftTracks(replies, taken, received);
    ShiftKeeps(taken);
    DoNextTracks(c, replies, Shift(taken), received + s.buffer);
    assert DoNext(c, Shift(taken)).buffer == [];
  }

  /** One socket is kept, or a new one is opened with a new number. */
  predicate Onward(s: State, s': State) {
    && s.sockets <= s'.sockets
    && (s'.socket.Some? ==>
          || s'.socket.value.number >= s.sockets
          || (s.socket.Some? && s'.socket.value.number == s.socket.value.number))
  }

  lemma FollowAgain(a: State, b: State, d: State, received: Text)
    requires Onward(a, b) && Onward(b, d)
    requires a.socket.Some? ==> a.socket.value.number < a.sockets
    ensures Onward(a, d) && Follow(b, d, Follow(a, b, received)) == Follow(a, d, received)
  {
  }

  // ---- Data ---------------------------------------------------------------------------------------------

  lemma PrefixTail(a: Text, b: Text, chunk: Text, r: Text)
    requires a + b + chunk <= a + r
    ensures b + chunk <= r
  {
    var t := a + b + chunk;
    assert (a + r)[..|t|] == t;
    forall i | 0 <= i < |b + chunk|
      ensures |a| + i < |a + r| && r[i] == (b + chunk)[i]
    {
      assert t[|a| + i] == (a + r)[|a| + i];
    }
  }

  /** An honest chunk continues the reply to the head, and goes no further. */
  lemma ChunkContinues(replies: Replies, s: State, received: Text, chunk: Text)
    requires Core(s) && HeadWritten(s) && OnTrack(replies, s, received)
    requires received + chunk <= Stream(replies, s.socket.value.number, s.socket.value.sent)
    ensures s.buffer + chunk <= replies(s.socket.value.number, s.queue[0])
  {
    var number, head := s.socket.value.number, s.queue[0];
    assert s.socket.value.sent == Past(s) + [head];
    StreamMore(replies, number, Past(s), head);
    PrefixTail(Stream(replies, number, Past(s)), s.buffer, chunk, replies(number, head));
  }

  /** Nothing arrives that no request claims. */
  lemma NothingUnclaimed(c: Config, replies: Replies, s: State, received: Text, chunk: Text)
    requires Driven(c, s) && s.connection == Connected && OnTrack(replies, s, received) && AllServed(replies, s)
    requires received + chunk <= Stream(replies, s.socket.value.number, s.socket.value.sent)
    requires !HeadExpects(s)
    ensures chunk == [] && s.buffer == [] && OnData(c, s, chunk) == s
  {
    if |s.queue| == 0 {
      assert received == Stream(replies, s.socket.value.number, s.socket.value.sent);
      assert |received + chunk| <= |received|;
    } else {
      ChunkContinues(replies, s, received, chunk);
      assert Served(replies, s.queue[0], s.works[s.queue[0]].fulfill, false);
    }
    assert s.buffer + chunk == s.buffer;
  }

  /** A chunk either completes the reply to the head, which takes exactly it, or waits. */
  lemma DataIsPartOrWhole(c: Config, replies: Replies, s: State, received: Text, chunk: Text)
    requires Driven(c, s) && s.connection == Connected && OnTrack(replies, s, received) && AllServed(replies, s)
    requires received + chunk <= Stream(replies, s.socket.value.number, s.socket.value.sent)
    requires HeadExpects(s)
    ensures var reply := replies(s.socket.value.number, s.queue[0]);
      var fed := s.(buffer := s.buffer + chunk);
      && s.buffer + chunk <= reply
      && (s.buffer + chunk == reply ==>
            Claim(s.works[s.queue[0]].fulfill, fed.buffer) == |reply| && OnTrack(replies, fed.(buffer := []), Stream(replies, s.socket.value.number, Past(s)))
            && OnData(c, s, chunk) == Answered(c, fed, |fed.buffer|))
      && (s.buffer + chunk != reply ==>
            Claim(s.works[s.queue[0]].fulfill, fed.buffer) <= 0
            && OnData(c, s, chunk) == fed && OnTrack(replies, fed, received + chunk))
  {
    ChunkContinues(replies, s, received, chunk);
    var reply := replies(s.socket.value.number, s.queue[0]);
    var w := s.works[s.queue[0]];
    assert Served(replies, s.queue[0], w.fulfill, w.expectResponse);
    assert Framed(w.fulfill, reply);
    var fed := s.(buffer := s.buffer + chunk);
    if fed.buffer == reply {
      var past := Stream(replies, s.socket.value.number, Past(s));
      assert past + [] == past;
      AnsweredTracks(c, replies, fed, past);
    } else {
      assert fed.buffer == reply[..|fed.buffer|];
      assert received + chunk == Stream(replies, s.socket.value.number, Past(s)) + fed.buffer;
    }
  }
}
