/** The request queue of one socket: what every call and every event does to it. The socket
    object of `NaiveSocket` is proved to follow these functions step by step. */
module SocketQueue {
  import opened Text
  import opened Unsolicited

  /** A request, by the order in which requests were made. */
  type Id = nat

  datatype Fulfill =
    | ByFunction(decide: Text -> int)
    | ByRegex(firstGroup: Text -> Option<Text>)
    | ByLength(length: int)

  datatype Request = Request(
    message: Text, fulfill: Fulfill, timeoutMillis: int, urgent: bool, expectResponse: bool)

  datatype Outcome = Pending | Resolved(reply: Text) | Rejected

  /** One queued request. `deadline` is when its timer fires, if one is armed. */
  datatype SendWork = SendWork(
    message: Text, fulfill: Fulfill, timeoutMillis: int, expectResponse: bool, createdAt: int,
    outcome: Outcome, deadline: Option<int>, written: bool, resent: bool, deadlineStarted: bool)

  datatype ConnectionState = Connecting | Connected | Disconnected

  /** An open socket: which one it is, whether either side has ended it, and what was written. */
  datatype Link = Link(number: nat, ended: bool, sent: seq<Id>)

  /** What the constructor was given, and whether opening a socket throws (`tls.connect`). */
  datatype Config = Config(openThrows: bool, retryInterval: int, consumer: Option<Consumer>)

  datatype State = State(
    queue: seq<Id>, works: map<Id, SendWork>, buffer: Text,
    connection: ConnectionState, socket: Option<Link>, alive: bool,
    sockets: nat, retries: seq<int>, now: int)

  datatype WriteResult = Sent | Failed(nothingSent: bool)

  const INITIAL: State := State([], map[], [], Disconnected, None, true, 0, [], 0)

  // ---- Works -----------------------------------------------------------------------------

  predicate Settled(w: SendWork) {
    !w.outcome.Pending?
  }

  /** `decomposePromise`: the first settlement wins. */
  function Settle(w: SendWork, outcome: Outcome): SendWork {
    if Settled(w) then w else w.(outcome := outcome)
  }

  /** Settled, and its timer cleared. */
  function Retire(w: SendWork, outcome: Outcome): SendWork {
    Settle(w, outcome).(deadline := None)
  }

  function Arm(w: SendWork, now: int): SendWork {
    if w.timeoutMillis <= 0 then w else w.(deadline := Some(now + w.timeoutMillis))
  }

  function NewWork(r: Request, now: int): SendWork {
    Arm(SendWork(r.message, r.fulfill, r.timeoutMillis, r.expectResponse, now,
                 Pending, None, false, false, false), now)
  }

  function MarkWritten(w: SendWork, now: int): SendWork {
    var written := w.(written := true);
    if w.deadlineStarted then written else Arm(written.(deadlineStarted := true), now)
  }

  /** How many characters of the buffer a request claims; zero or less means "wait". */
  function Claim(fulfill: Fulfill, buffer: Text): int {
    match fulfill
    case ByFunction(decide) => decide(buffer)
    case ByRegex(firstGroup) => (match firstGroup(buffer) case None => -1 case Some(t) => |t|)
    case ByLength(length) => if |buffer| >= length then length else -1
  }

  // ---- The queue -------------------------------------------------------------------------------

  predicate Known(s: State) {
    forall i :: 0 <= i < |s.queue| ==> s.queue[i] in s.works
  }

  predicate HeadWritten(s: State)
    requires Known(s)
  {
    |s.queue| > 0 && s.works[s.queue[0]].written
  }

  function Insert(s: State, id: Id, urgent: bool): (r: State)
    requires Known(s) && id in s.works
    ensures Known(r)
  {
    if !urgent then s.(queue := s.queue + [id])
    else
      var at := if HeadWritten(s) then 1 else 0;
      s.(queue := s.queue[..at] + [id] + s.queue[at..])
  }

  /** The works in `ids` changed by `update`, the others as they were. */
  function Rejecting(works: map<Id, SendWork>, ids: seq<Id>): (r: map<Id, SendWork>)
    requires forall i :: 0 <= i < |ids| ==> ids[i] in works
    ensures r.Keys == works.Keys
  {
    map id | id in works :: if id in ids then Retire(works[id], Rejected) else works[id]
  }

  function Unwriting(works: map<Id, SendWork>, ids: seq<Id>): (r: map<Id, SendWork>)
    ensures r.Keys == works.Keys
  {
    map id | id in works :: if id in ids then works[id].(written := false) else works[id]
  }

  lemma RejectingMore(works: map<Id, SendWork>, ids: seq<Id>, i: nat)
    requires i < |ids| && forall j :: 0 <= j < |ids| ==> ids[j] in works
    ensures var done := Rejecting(works, ids[..i]);
      Rejecting(works, ids[..i + 1]) == done[ids[i] := Retire(done[ids[i]], Rejected)]
  {
    assert ids[..i + 1] == ids[..i] + [ids[i]];
  }

  lemma UnwritingMore(works: map<Id, SendWork>, ids: seq<Id>, i: nat)
    requires i < |ids| && forall j :: 0 <= j < |ids| ==> ids[j] in works
    ensures var done := Unwriting(works, ids[..i]);
      Unwriting(works, ids[..i + 1]) == done[ids[i] := done[ids[i]].(written := false)]
  {
    assert ids[..i + 1] == ids[..i] + [ids[i]];
  }

  function FailAll(s: State): (r: State)
    requires Known(s)
    ensures Known(r) && r.works.Keys == s.works.Keys
  {
    s.(queue := [], works := Rejecting(s.works, s.queue))
  }

  function DoDisconnect(s: State): (r: State)
    requires Known(s)
    ensures Known(r) && r.works.Keys == s.works.Keys
  {
    s.(buffer := [], works := Unwriting(s.works, s.queue), connection := Disconnected, socket := None)
  }

  function Connect(c: Config, s: State): (r: State)
    requires Known(s)
    ensures Known(r) && r.works.Keys == s.works.Keys
  {
    if c.openThrows then FailAll(s.(connection := Connecting)).(connection := Disconnected, socket := None)
    else s.(connection := Connecting, socket := Some(Link(s.sockets, false, [])), sockets := s.sockets + 1)
  }

  function RetryToConnect(c: Config, s: State): (r: State)
    requires Known(s)
    ensures Known(r) && r.works.Keys == s.works.Keys
  {
    var d := DoDisconnect(s);
    if |d.queue| == 0 && c.consumer.None? then d
    else if c.retryInterval < 0 then d
    else d.(retries := d.retries + [d.now + c.retryInterval])
  }

  /** The first position from `i` on whose work is not settled. */
  function FirstUnsettled(queue: seq<Id>, works: map<Id, SendWork>, i: nat): (k: nat)
    requires i <= |queue| && forall j :: 0 <= j < |queue| ==> queue[j] in works
    ensures i <= k <= |queue|
    ensures k < |queue| ==> !Settled(works[queue[k]])
    ensures forall j :: i <= j < k ==> Settled(works[queue[j]])
    decreases |queue| - i
  {
    if i < |queue| && Settled(works[queue[i]]) then FirstUnsettled(queue, works, i + 1) else i
  }

  /** Without the settled works at the head of the queue. */
  function DropSettled(s: State): (r: State)
    requires Known(s)
    ensures Known(r) && r.works.Keys == s.works.Keys && (|r.queue| > 0 ==> !Settled(r.works[r.queue[0]]))
  {
    s.(queue := s.queue[FirstUnsettled(s.queue, s.works, 0)..])
  }

  function WriteHead(s: State): (r: State)
    requires Known(s) && |s.queue| > 0 && s.socket.Some?
    ensures Known(r) && r.works.Keys == s.works.Keys
  {
    var id, link := s.queue[0], s.socket.value;
    s.(works := s.works[id := MarkWritten(s.works[id], s.now)],
       socket := Some(link.(sent := link.sent + [id])))
  }

  function DoNext(c: Config, s: State): (r: State)
    requires Known(s)
    ensures Known(r) && r.works.Keys == s.works.Keys
  {
    if s.connection == Connecting then s
    else if s.socket.None? || s.connection != Connected then Connect(c, s)
    else if s.socket.value.ended then Connect(c, DoDisconnect(s))
    else
      var d := DropSettled(s);
      if |d.queue| == 0 || HeadWritten(d) then d else WriteHead(d)
  }

  function Shift(s: State): (r: State)
    requires Known(s) && |s.queue| > 0
    ensures Known(r) && r.works.Keys == s.works.Keys
  {
    s.(queue := s.queue[1..])
  }

  // ---- Calls and events ---------------------------------------------------------------------------

  function Send(c: Config, s: State, request: Request, id: Id): (r: State)
    requires Known(s)
    ensures Known(r)
  {
    var queued := Insert(s.(alive := true, works := s.works[id := NewWork(request, s.now)]), id, request.urgent);
    if |queued.queue| == 1 then DoNext(c, queued) else queued
  }

  function Disconnect(s: State): (r: State)
    requires Known(s)
    ensures Known(r) && r.works.Keys == s.works.Keys
  {
    var gone := DoDisconnect(s.(alive := false));
    FailAll(gone)
  }

  function Reset(c: Config, s: State): (r: State)
    requires Known(s)
    ensures Known(r) && r.works.Keys == s.works.Keys
  {
    RetryToConnect(c, FailAll(s))
  }

  function RetryFires(c: Config, s: State): (r: State)
    requires Known(s) && |s.retries| > 0
    ensures Known(r) && r.works.Keys == s.works.Keys
  {
    var fired := s.(retries := s.retries[1..]);
    if s.alive && s.connection == Disconnected then Connect(c, fired) else fired
  }

  datatype Sending = Sending(request: Request, id: Id)

  function SendAll(c: Config, s: State, sendings: seq<Sending>): (r: State)
    requires Known(s)
    ensures Known(r)
    decreases |sendings|
  {
    if |sendings| == 0 then s
    else SendAll(c, Send(c, s, sendings[0].request, sendings[0].id), sendings[1..])
  }

  /** The listener, told of the connection, sends what it wants; then the queue resumes. */
  function OnConnect(c: Config, s: State, listener: seq<Sending>): (r: State)
    requires Known(s)
    ensures Known(r)
  {
    DoNext(c, SendAll(c, s.(connection := Connected), listener))
  }

  function OnClose(c: Config, s: State): (r: State)
    requires Known(s)
    ensures Known(r) && r.works.Keys == s.works.Keys
  {
    if s.alive then RetryToConnect(c, s) else s
  }

  function ConsumeUnsolicited(c: Config, s: State): (r: State)
    requires Known(s)
    ensures Known(r) && r.works.Keys == s.works.Keys
  {
    s.(buffer := match c.consumer
                 case None => []
                 case Some(consume) => Drain(consume, s.buffer).rest)
  }

  predicate HeadExpects(s: State)
    requires Known(s)
  {
    |s.queue| > 0 && s.works[s.queue[0]].expectResponse
  }

  /** The head took its reply, settled or not, and the queue moved on. */
  function Answered(c: Config, s: State, length: nat): (r: State)
    requires Known(s) && |s.queue| > 0
    ensures Known(r) && r.works.Keys == s.works.Keys
  {
    var id, cut := s.queue[0], Min(length, |s.buffer|);
    var retired := s.(works := s.works[id := Retire(s.works[id], Resolved(s.buffer[..cut]))],
                      buffer := s.buffer[cut..]);
    DoNext(c, Shift(retired))
  }

  function OnData(c: Config, s: State, chunk: Text): (r: State)
    requires Known(s)
    ensures Known(r) && r.works.Keys == s.works.Keys
  {
    var fed := s.(buffer := s.buffer + chunk);
    if !HeadExpects(fed) then ConsumeUnsolicited(c, fed)
    else
      var length := Claim(fed.works[fed.queue[0]].fulfill, fed.buffer);
      if length <= 0 then fed
      else
        var next := Answered(c, fed, length);
        if |next.buffer| > 0 && !HeadExpects(next) then ConsumeUnsolicited(c, next) else next
  }

  predicate IsHead(s: State, id: Id) {
    |s.queue| > 0 && s.queue[0] == id
  }

  function OnWritten(c: Config, s: State, id: Id, result: WriteResult): (r: State)
    requires Known(s) && id in s.works
    ensures Known(r) && r.works.Keys == s.works.Keys
  {
    var w := s.works[id];
    match result
    case Failed(nothingSent) =>
      if nothingSent && !w.resent && IsHead(s, id) && s.alive then
        Connect(c, DoDisconnect(s.(works := s.works[id := w.(resent := true)])))
      else
        var rest := if IsHead(s, id) then Shift(s) else s;
        RetryToConnect(c, rest.(works := rest.works[id := Retire(w, Rejected)]))
    case Sent =>
      if w.expectResponse then s
      else
        var retired := s.(works := s.works[id := Retire(w, Resolved([]))]);
        if IsHead(s, id) then DoNext(c, Shift(retired)) else retired
  }

  function TimerFires(s: State, id: Id): (r: State)
    requires Known(s) && id in s.works
    ensures Known(r) && r.works.Keys == s.works.Keys
  {
    s.(works := s.works[id := Retire(s.works[id], Rejected)])
  }
}
