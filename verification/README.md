# yingyeothon: proofs about its protocols

A Dafny model of the parts of the repository where correctness rests on a protocol rather than on a
single function, and proofs of what those protocols are for. Each module models one source file or
one layer of it. Where the source changes state step by step, a class holds the same fields; its
methods are proved equal to functions on values, and keep the invariants that are proved of those
functions over every run.

- **Requests and replies on one socket.** `NaiveSocket` is the socket object; `SocketQueue` says what
  each call and event does; `SocketRuns` proves the queue invariants, that no request is lost and that
  timeouts hold; `SocketWrites` when a request reaches the server more than once; `SocketReplies` and
  `SocketAttribution` that replies, which carry no request id, reach exactly the requests they answer.
  `TextMatch` and `Reply` frame RESP replies, `PushFrame` and `Unsolicited` read a subscriber's
  stream, `Serialize` prints commands and reads them back.
- **A replicated turn log.** `CanonicalJson` is the canonical printer, with a reader that its texts are
  proved against, and `TurnLog` the hash chain on it; `TurnSteps` and `TurnGame` are the handlers,
  `TurnRuns` what each of them keeps and `TurnEffects` what some of them bring about; `TurnLane`
  runs them await by await beside the load of a saved log and the replay timer, and `TurnHistory`
  proves the log valid, growing and agreed on, with the exact conditions, of which `TurnExamples`
  has runs that fail. `TurnSizes` and `TurnCaps` prove the log within its cap, `TurnReplay` that
  sending a log in parts is lossless, and `TurnAnswer` when any two players can do it.
- **An offline save queue.** `SaveModel`, `SaveQueue` and `SaveRuns`: a write-behind queue over
  versioned rows, with lost acknowledgements and crashes; `SaveForeign` that it never overwrites
  what another client wrote.
- **Encrypted range reads.** `AssetFormat` is the layout, `BodyReader` the streaming reader, `AssetFile`
  a file with all its versions, `AssetReads` and `AssetClient` the ways to open, read and download it,
  `AssetProofs` what holds against any host and against one that serves one version, `AssetChanges` that
  reads and downloads succeed while the host changes versions; `AssetKey` is the key's text form.
- **Compare-and-set documents.** `Documents` is `editDocument` by any number of callers over three
  backends, `MemoryRepository` the in-memory one.
- **Actors.** `ActorQueue` is at-least-once and `ActorFlush` at-most-once consumption; `ActorLock` is
  the lease lock with heartbeats of any number of processes, and `ActorLease` what keeps a lease from
  expiring; `ActorLoss` proves when a reported loss is
  true and `ActorMisled` that this is exact, `ActorAfter` who can come to own the lock when, and
  `ActorSurprises` has runs that go wrong; `ActorProcess` has the objects.

Every `await` is a step boundary. Handlers that the source runs one at a time, in the lane of a turn
game or of the save queue, are still one step for each other; but what does not wait for that lane,
the load of a saved log and the replay timer, falls into any of their awaits. A command of the actors'
queue and lock (`ActorQueue`, `ActorFlush`, `ActorLock`) and a conditional write of a document
(`Documents`) is a copy on the wire: it can be carried out late, after its caller gave it up, or more
than once, because a connection that drops sends its head again. Hashes and tags are ideal: two
texts never share a hash, and only sealed segments verify. Random ids are new. Servers are small
atomic state machines, and what they or the network answer is a parameter of each step.

Facts about the code that the proofs turned up, each with its exact condition:

- `serializeCommand` prints a command inline when all its parts are safe, also when the first begins
  with a star; a server then reads an array header. An empty command prints an empty line.
  `Serialize.ReadBackIff`.
- `ensureDocument` replaces a stored content that JavaScript takes for false by the empty value.
  `Documents.EditsContentIff`.
- With a negative reconnect interval a connection that drops with requests queued has no reconnect
  scheduled (`SocketRuns.DropSchedulesIff`), and later requests, timers and time never have anything
  written (`SocketRuns.SleepsWithoutReconnect`). What does drive the queue again is a late error of a
  write that had sent nothing (`SocketRuns.LateErrorRouses`), or a request after `disconnect` or
  `reset` emptied it (`SocketRuns.ShutDownRouses`).
- A request whose connection drops before its answer is sent again on the next one. Exactly if its
  timeout is positive and at most the reconnect interval, it is given up before that
  (`SocketWrites.CarriedOnceIff`); the defaults, 5000 ms both, are such. Without that a resent LPOP
  pops a message nobody handled (`ActorQueue.ResentPopSkips`, `HandledFirstIff`), a resent LTRIM
  drops messages nobody read (`ActorFlush.ResentTrimLosesUnread`, `NothingUnreadIff`,
  `FlushRefinesAtomicIff`), a resent SET NX is refused by its own key
  (`ActorSurprises.ResentAcquireReportsLoss`), and a resent conditional write applies an edit twice
  (`Documents.EditAppliedTwice`, `ExactlyOnceIff`). So can a client library
  that retries by itself. The guard is the caller's to set; it speaks of runs without `disconnect`,
  `reset` and reports of a write after its socket was gone, because those leave a reconnect timer
  behind that can fire early.
- A heartbeat reports a loss when its SET NX is refused, also by the process's own key: when that SET NX
  was resent, and, with no resending at all, when the answer to an earlier one was lost, for then the
  process does not know the token that it put there (`ActorSurprises.LostAnswerReportsLoss`). No choice
  of timeout guards against the latter. `ActorMisled.MisledIff`; over runs that lose no answer to a
  SET NX a reported loss is true, `ActorLoss.ReportedLossIsTrue`.
- A request that timed out may still be carried out. An acquisition of the lock that timed out can
  take it when its loop is over (`ActorSurprises.LateAcquireOwns`), and so can a heartbeat's beat that
  was under way when its loop released the lock (`ActorAfter.BeatCanOutliveRelease`); nobody releases
  it then. `ActorAfter.OwnsAgainIff`.
- Before a turn game has an id, a move that carries none either is accepted. The load of a saved log
  does not wait for the handlers: when it commits, it throws such moves away
  (`TurnExamples.LoadDropsMove`; `TurnRuns.LoadExtendsIff`), and when it commits while the hash of
  one is awaited, that move lands on the loaded log and the chain is broken
  (`TurnExamples.MoveLandsOnLoadedLog`; `TurnHistory.LoadSafeIff`). With messages that name the game
  neither happens (`TurnHistory.GrowsWhenNamed`).
- A log that a player may hold need not reach another: the parts' sizes add up to one byte more than
  the log's for every part but the first, and a requester whose sum exceeds the cap freezes.
  `TurnAnswer.ReplayIff`.

All lemmas whose statement involves a recursive function switch automatic induction off; their
induction is written out.

## Model

| member | source | states |
|---|---|---|
| `TextMatch.TextMatch.Capture` | packages/naive-socket/src/match.ts:27-43 | one capture records the text before the mark and skips the mark; a missing mark is an error no later capture undoes |
| `TextMatch.TextMatch.Evaluate` | packages/naive-socket/src/match.ts:44-46 | the consumed length, or -1 after an error |
| `TextMatch.CaptureStable` | packages/naive-socket/src/match.ts:27-43 | a capture that succeeded succeeds identically when more text has arrived |
| `Reply.CaptureReplyFrom` | packages/naive-redis/src/exchange/reply.ts:19-43 | the loop over an array's elements does what the framing function says, for every header |
| `Reply.FramesFlatReply` | packages/naive-redis/src/exchange/reply.ts:3-18 | a flat reply followed by anything is framed at exactly its printed length, and its lines are what is captured |
| `Reply.FramingStable` | packages/naive-redis/src/exchange/reply.ts:19-43 | for any buffer, once a length is claimed the same length is claimed however much more is received |
| `Reply.ProperPrefixWaits` | packages/naive-redis/src/exchange/reply.ts:19-43 | on every proper prefix of a flat reply the matcher waits |
| `PushFrame.CharactersForBytes` | packages/naive-redis/src/subscriber/pushFrame.ts:145-169 | the walk over code points: short, off a character boundary, or the exact character count |
| `PushFrame.ParseFrame` | packages/naive-redis/src/subscriber/pushFrame.ts:43-79 | the loop over the announced elements reads the frame at the head of the buffer, waits for the rest of it, or throws, as the parser function that the frame laws are proved of does |
| `PushFrame.ParsesPrintedFrame` | packages/naive-redis/src/subscriber/pushFrame.ts:31-42 | every well-formed flat frame, followed by anything, is consumed whole and read as what its elements say, told without the parser: a message is its channel and its payload, a confirmation its event, channel and count, anything else is passed over |
| `PushFrame.ReadsWhatIsSaid` | packages/naive-redis/src/subscriber/pushFrame.ts:81-98 | of three bulks 'message', c, p the message c, p is read; of 'subscribe' or 'unsubscribe', c and a printed number n the confirmation of c with n; every other printed frame is passed over |
| `PushFrame.ParseStable` | packages/naive-redis/src/subscriber/pushFrame.ts:43-79 | for any buffer, a decision, frame or error, does not change when more arrives, also when a surrogate pair was cut at its end |
| `PushFrame.ProperPrefixIncomplete` | packages/naive-redis/src/subscriber/pushFrame.ts:17-24 | every proper prefix of a frame is incomplete |
| `PushFrame.DeliversFramesForEveryCut` | packages/naive-redis/src/subscriber/createRedisSubscriber.ts:156-174 | for every cut of a stream of printed frames the subscriber reads exactly those frames, in order, each as what its elements say, and keeps the partial one |
| `PushFrame.DeliversWhatIsPublished` | packages/naive-redis/src/subscriber/createRedisSubscriber.ts:156-174 | for every cut of the stream that a server prints for some publications and confirmations, the channels and payloads delivered are those published, in order |
| `Unsolicited.DrainInTwo` | packages/naive-socket/src/naive-socket.ts:499-518 | feeding the consumer in two chunks takes the same pieces as feeding it everything at once |
| `Unsolicited.FeedIsDrain` | packages/naive-socket/src/naive-socket.ts:487-519 | for every cut of the stream the consumer takes the same pieces in the same order and leaves the same rest |
| `Unsolicited.ThrowIsFinal` | packages/naive-socket/src/naive-socket.ts:503-513 | a consumer that threw on a prefix throws on every longer buffer |
| `Serialize.Serialized` | packages/naive-redis/src/exchange/serialize.ts:1-30 | the loop that grows the lines prints what the serializing function says |
| `Serialize.CommandBytes` | packages/naive-redis/src/exchange/serialize.ts:14-29 | the bytes on the wire: inline tokens joined by spaces, or length-prefixed bulks with byte counts of multi-byte text |
| `Serialize.StreamIsReadBack` | packages/naive-redis/src/send.ts:44-50 | a stream of commands in any mix of forms is read back by a RESP2 server as the same argument lists, with nothing left over |
| `Serialize.ReadBackIff` | packages/naive-redis/src/exchange/serialize.ts:1-30 | a single command is read back if and only if it has a part and its inline form does not begin with a star |
| `CanonicalJson.CheckUnicode` | packages/game-kit/src/json.ts:12-21 | the scan accepts exactly the texts whose surrogates are all paired |
| `CanonicalJson.Encode` | packages/game-kit/src/json.ts:4-46 | the recursive printer with its loop over array items prints the canonical text, or fails as it does |
| `CanonicalJson.SortSorts` | packages/game-kit/src/json.ts:60-63 | keys come out in the order of their code units, section 3.2.3 of RFC 8785 |
| `CanonicalJson.LessIff` | packages/game-kit/src/json.ts:60-63 | the key order: the lesser unit where two texts first differ, or the shorter text, comes first |
| `CanonicalJson.CanonicalIsPrint` | packages/game-kit/src/json.ts:2-69 | printing succeeds exactly on valid Unicode, and then prints the normal form |
| `CanonicalJson.CanonicalReadsBack` | packages/game-kit/src/json.ts:70-72 | the canonical text is a JSON text, and a reader written from RFC 8259 gives the value back from it with every object in key order, which is what copyJson stores |
| `CanonicalJson.NormalizeDecidesSame` | packages/game-kit/src/json.ts:70-72 | two values have the same normal form exactly if they are equal as JSON values |
| `CanonicalJson.PrintInjective` | packages/game-kit/src/json.ts:2-69 | no two ordered values print the same text, because what was printed is read back |
| `CanonicalJson.CanonicalIffSame` | packages/game-kit/src/json.ts:1-69 | two values print the same canonical text if and only if they are equal as JSON values, whatever the insertion order |
| `CanonicalJson.NormalizeIsStable` | packages/game-kit/src/json.ts:70-72 | a copy equals the original as a JSON value and is its own copy |
| `NaiveSocket.NaiveSocket.Send` | packages/naive-socket/src/naive-socket.ts:199-217 | the new work carries what was asked, goes to the back, or to the front but behind a head that is on the wire, and is driven when alone in the queue; the queue invariants hold afterwards and no other request changes but for being written |
| `NaiveSocket.NaiveSocket.Disconnect` | packages/naive-socket/src/naive-socket.ts:219-226 | every request there ever was is settled, nothing is queued, the socket is down and not alive; outcomes settled before stay |
| `NaiveSocket.NaiveSocket.Reset` | packages/naive-socket/src/naive-socket.ts:228-236 | every request there ever was is settled and nothing is queued; a reconnect is added exactly if the socket consumes pushed data and reconnecting is on |
| `NaiveSocket.NaiveSocket.Connect` | packages/naive-socket/src/naive-socket.ts:297-314 | afterwards the socket is connecting, or every request that was queued is settled; nothing unsettled is lost |
| `NaiveSocket.NaiveSocket.FailAllPendingWork` | packages/naive-socket/src/naive-socket.ts:316-323 | the loop empties the queue; every request that was in it is settled and its timer cleared |
| `NaiveSocket.NaiveSocket.DoDisconnect` | packages/naive-socket/src/naive-socket.ts:363-386 | the loop takes every queued work off the wire; buffer and socket are gone, the queue stays |
| `NaiveSocket.NaiveSocket.RetryToConnect` | packages/naive-socket/src/naive-socket.ts:400-421 | the queue stays and none of it is on the wire; if anything is queued and reconnecting is on, a reconnect is scheduled |
| `NaiveSocket.NaiveSocket.RetryFires` | packages/naive-socket/src/naive-socket.ts:410-420 | a reconnect timer that fires on a living socket leaves it connecting or connected, or the queue empty; no request is lost and no outcome changes |
| `NaiveSocket.NaiveSocket.OnConnect` | packages/naive-socket/src/naive-socket.ts:388-391 | the listener's sends, one after the other, then the queue resumes; the queue invariants hold and no outcome changes |
| `NaiveSocket.NaiveSocket.OnClose` | packages/naive-socket/src/naive-socket.ts:393-398 | the queue survives a dropped connection unchanged; a reconnect an interval from now is added exactly if the socket is alive, reconnecting is on, and something is queued or pushed data is consumed |
| `NaiveSocket.NaiveSocket.OnData` | packages/naive-socket/src/naive-socket.ts:447-485 | the head claims a reply or the consumer is fed; a claimed reply retires the head and the queue moves on; unless a request then waits for a reply nothing is left that the consumer would take, and without a consumer nothing at all |
| `NaiveSocket.NaiveSocket.ConsumeUnsolicitedData` | packages/naive-socket/src/naive-socket.ts:487-519 | the consumer is fed until it waits for more or throws; without one the buffer is dropped |
| `NaiveSocket.NaiveSocket.DoNextSendWork` | packages/naive-socket/src/naive-socket.ts:521-569 | reconnect, or drop settled works and write the head if it is not on the wire |
| `NaiveSocket.NaiveSocket.DropSettled` | packages/naive-socket/src/naive-socket.ts:550-553 | the loop removes exactly the settled works at the head |
| `NaiveSocket.NaiveSocket.OnWritten` | packages/naive-socket/src/naive-socket.ts:567-612 | the four ends of a write: resend once, fail, nothing, or retire a work that expects no reply |
| `NaiveSocket.NaiveSocket.TimerFires` | packages/naive-socket/src/naive-socket.ts:287-289 | the request is rejected and its timer gone, and nothing else changes: it keeps its place in the queue and on the wire, so a late reply is still its own |
| `SocketRuns.InsertKeeps` | packages/naive-socket/src/naive-socket.ts:202-212 | an urgent work never displaces a head that is on the wire |
| `SocketRuns.StepKeeps` | packages/naive-socket/src/naive-socket.ts:163-614 | every call and event keeps the queue invariants, loses no request and changes no settled outcome |
| `SocketRuns.OnlyHeadOnWire` | packages/naive-socket/src/naive-socket.ts:521-566 | over every run only the head is ever on the wire, and connected with a non-empty queue implies that it is |
| `SocketRuns.NothingIsLost` | packages/naive-socket/src/naive-socket.ts:199-217 | over every run each request is settled or queued, and queued at most once |
| `SocketRuns.OutcomeIsFinal` | packages/naive-socket/src/promise.ts:9-29 | a settled outcome never changes, whatever happens later |
| `SocketRuns.RequestIsKept` | packages/naive-socket/src/naive-socket.ts:199-217 | over every run a request stays what it was asked as: message, matcher, timeout and whether a reply is expected |
| `SocketRuns.NoTimerIsLeft` | packages/naive-socket/src/naive-socket.ts:468-471 | over every run a settled request has no timer left |
| `SocketRuns.DataIsConsumed` | packages/naive-socket/src/naive-socket.ts:447-485 | whatever arrives in whatever state: unless a request waits for its reply, the consumer gets it, also what is left behind a reply, and without a consumer it is dropped |
| `SocketRuns.ReplyIsCut` | packages/naive-socket/src/naive-socket.ts:458-484 | on a live connection the head resolves with exactly the characters it claims, and its timer is gone; the rest is kept for the next request, or fed to the consumer |
| `SocketRuns.SettledInTime` | packages/naive-socket/src/naive-socket.ts:259-290 | with timeout T a request is settled once 2T has passed since it was made, however often the connection dropped |
| `SocketRuns.NeverStranded` | packages/naive-socket/src/naive-socket.ts:400-421 | over every run something queued on a disconnected socket has a reconnect due within the interval that connects or empties the queue, unless reconnecting is off |
| `SocketRuns.DropSchedulesIff` | packages/naive-socket/src/naive-socket.ts:393-421 | over every run a connection that drops with requests queued has a reconnect scheduled if and only if the interval is not negative |
| `SocketRuns.SleepsWithoutReconnect` | packages/naive-socket/src/naive-socket.ts:400-409 | over every run that drops with a negative interval: whatever requests, timers and time follow, nothing but what had been written before the drop was ever written, and what was queued then stays queued, in its order |
| `SocketRuns.LateErrorRouses` | packages/naive-socket/src/naive-socket.ts:571-588 | a late error of a write that had sent nothing does drive such a queue |
| `SocketRuns.ShutDownRouses` | packages/naive-socket/src/naive-socket.ts:219-236 | so does a request after the queue was shut down or reset |
| `SocketWrites.CarriedOnce` | packages/naive-socket/src/naive-socket.ts:363-421 | with a positive timeout no longer than the reconnect interval a request reaches the server at most once, over every run without shut-downs and resets in which writes report before their socket is gone |
| `SocketWrites.CarriedTwice` | packages/naive-socket/src/naive-socket.ts:363-386 | without such a timeout there is a run in which it reaches the server twice |
| `SocketWrites.CarriedOnceIff` | packages/naive-socket/src/naive-socket.ts:363-421 | that timeout is exactly the condition |
| `SocketReplies.DataIsPartOrWhole` | packages/naive-socket/src/naive-socket.ts:447-475 | a chunk of an honest stream completes the head's reply, which takes exactly it, or makes it wait |
| `SocketReplies.NothingUnclaimed` | packages/naive-socket/src/naive-socket.ts:449-456 | an honest server never sends what no request claims |
| `SocketAttribution.TurnKeeps` | packages/naive-socket/src/naive-socket.ts:447-485 | every event keeps: what came on the socket is the replies to past requests, in order, and a part of the head's |
| `SocketAttribution.EachReplyReachesItsOwner` | packages/naive-socket/src/naive-socket.ts:199-217 | over every run of sends, timeouts, resets, reconnects, resends and cut input, a resolved request holds the reply made for it |
| `SocketAttribution.EveryByteIsOwned` | packages/naive-socket/src/naive-socket.ts:447-485 | no byte is lost, doubled or left over on a connection |
| `SocketAttribution.DataConcernsTheHead` | packages/naive-socket/src/naive-socket.ts:447-485 | completing a reply retires the head alone; a late reply is eaten by its timed-out owner; the consumer of unclaimed data gets nothing |
| `SocketAttribution.FlatRepliesAreFramed` | packages/naive-redis/src/exchange/reply.ts:3-18 | the Redis client's matcher meets the framing assumption for every flat reply |
| `SocketAttribution.LengthIsFramed` | packages/naive-socket/src/naive-socket.ts:642-644 | a matcher by length frames a reply exactly if it is of that length |
| `SocketAttribution.PatternIsFramed` | packages/naive-socket/src/naive-socket.ts:636-640 | a matcher by pattern frames a reply exactly if its first group is as long as the reply and missing or empty for every beginning of it |
| `TurnLog.Chunks` | packages/game-kit/src/turns.ts:14-27 | throws exactly if a record is too large alone; else the parts are non-empty, within the limit, as full as possible, and concatenate to the log |
| `TurnLog.Validate` | packages/game-kit/src/turns.ts:155-172 | the loop accepts exactly the chains the rules accept, and returns their fold |
| `TurnLog.HashDetermines` | packages/game-kit/src/turns.ts:160-165 | with collision-free hashes one hash determines the previous hash, the index, the player and the move |
| `TurnLog.SharedHashSharesLog` | packages/game-kit/src/turns.ts:155-172 | two valid logs that share a hash at k share every move up to k |
| `TurnLog.SameMovesSameState` | packages/game-kit/src/turns.ts:166-169 | the same moves lead to the same state, whatever the key order inside them |
| `TurnGame.TurnGame.Fail` | packages/game-kit/src/turns.ts:98-105 | a game that fails is frozen, and its log and state are as they were, still a valid chain and its fold |
| `TurnGame.TurnGame.RequestLog` | packages/game-kit/src/turns.ts:253-277 | if none is awaited and someone could send it, the log is asked of them under a new id, what was gathered or waited is dropped, and it throws exactly if sending fails; otherwise nothing changes; log and state are untouched |
| `TurnGame.TurnGame.BeginAccept` | packages/game-kit/src/turns.ts:173-205 | what happens before a hash or a request is awaited: the move is dropped, buffered, compared or refused, and log and state are untouched |
| `TurnGame.TurnGame.EndHash` | packages/game-kit/src/turns.ts:205-237 | what happens after: the move is refused, freezes the game, is too large, or is added, and the log stays a valid chain; if a load fell in between, only if the move is then refused or still the next one |
| `TurnGame.TurnGame.Accept` | packages/game-kit/src/turns.ts:173-244 | live moves: buffered during a replay, compared when old, a replay asked for across a gap, added when next; the log stays valid and is only ever extended |
| `TurnGame.TurnGame.JudgeAssembly` | packages/game-kit/src/turns.ts:354-372 | the loop over the parts; a log it lets through has the records' hashes at its beginning |
| `TurnGame.TurnGame.CommitAssembly` | packages/game-kit/src/turns.ts:354-400 | missing parts wait, a mismatch freezes, a good log replaces the records and continues them |
| `TurnGame.TurnGame.ReplaceLog` | packages/game-kit/src/turns.ts:373-394 | the log and its state are put in, what waited is accepted, a waiting finish is settled; the result continues both the old records and the new log |
| `TurnGame.TurnGame.AcceptWaiting` | packages/game-kit/src/turns.ts:383-385 | the loop over the buffered moves; the log stays valid and is only extended |
| `TurnGame.TurnGame.OnManifest` | packages/game-kit/src/turns.ts:429-451 | only the asked responder may start an assembly, within the caps; the log stays valid and is only extended |
| `TurnGame.TurnGame.AddPart` | packages/game-kit/src/turns.ts:452-488 | a part is stored exactly if it belongs to the replay, is in range, not empty, new and fits; the game freezes exactly if it is misplaced, contradicts the part held, or overflows; otherwise nothing changes |
| `TurnGame.TurnGame.OnChunk` | packages/game-kit/src/turns.ts:452-490 | the part is stored and the assembly committed if complete; the log stays valid and is only extended |
| `TurnGame.TurnGame.OnFinish` | packages/game-kit/src/turns.ts:509-555 | the game is finished exactly if the finish comes from the host or in answer to the log request, need not wait for a log and names this log; it freezes exactly if such a finish is malformed or names another; one that must wait is kept |
| `TurnGame.TurnGame.SettleFinish` | packages/game-kit/src/turns.ts:386-394 | a finish that waited is settled once the log is there: the game is finished exactly if it names the log, else frozen |
| `TurnGame.TurnGame.OnStart` | packages/game-kit/src/turns.ts:401-423 | an id is taken, and only ever once, from a start of the host or of the asked responder under the same players and initial state; one that does not fit freezes the game; others are ignored |
| `TurnGame.TurnGame.Submit` | packages/game-kit/src/turns.ts:659-689 | on a live game, with the player at turn, a move that the rules allow and that fits, and a network that sends, the record hashed over the last hash is appended and only the state changes besides; in every other case the move is refused and nothing changes, unless the rules return what is no JSON value, which freezes the game |
| `TurnGame.TurnGame.ReplayTimesOut` | packages/game-kit/src/turns.ts:264-271 | if the request whose timer expired is still awaited it is dropped with all that was gathered and waited; otherwise nothing changes |
| `TurnGame.TurnGame.Initialize` | packages/game-kit/src/turns.ts:569-630 | a saved log is read in, or refused; the log is extended exactly if the load was refused or the saved log has the records' hashes at its beginning |
| `TurnGame.TurnGame.Load` | packages/game-kit/src/turns.ts:574-619 | it throws exactly if the counts are off, a part is missing or empty, the log too large, or the log is not the one named or not valid; then log and state are untouched, else the log is exactly the saved parts |
| `TurnGame.TurnGame.Gather` | packages/game-kit/src/turns.ts:601-609 | the loop over the saved parts: the log they make, or a part that is missing or empty, or a log too large |
| `TurnGame.TurnGame.ReplyLog` | packages/game-kit/src/turns.ts:291-314 | the answer is a copy of the log in parts that concatenate to it and each fit; it throws exactly if some move is too large for a part, and declines only for the wrong game, without one, or as the wrong responder |
| `TurnRuns.AcceptableExtends` | packages/game-kit/src/turns.ts:364-370 | a log checked by hashes alone continues the records |
| `TurnRuns.AcceptIffAllowed` | packages/game-kit/src/turns.ts:191-237 | what becomes of every live move when no log is awaited: added if and only if it is the sender's own, next, applicable and within the cap; a repeated one changes nothing; beyond a gap the log is asked for and the move waits; one that only makes the log too large is refused; any other freezes the game |
| `TurnRuns.SubmitIff` | packages/game-kit/src/turns.ts:659-689 | a submitted move is appended, as the next record over the last hash, if and only if the game is live, the player at turn, the move allowed and fitting, and sending works; otherwise nothing happens, or the game freezes on a state that is no JSON value |
| `TurnRuns.AcceptWaits` | packages/game-kit/src/turns.ts:174-190 | while a log is awaited a move waits, and too much that waits freezes the game |
| `TurnRuns.AcceptIgnores` | packages/game-kit/src/turns.ts:173-175 | a move for another game, or for one that is over or frozen, changes nothing |
| `TurnRuns.LoadExtendsIff` | packages/game-kit/src/turns.ts:574-619 | a load extends the records if and only if it was refused or the saved log has the records' hashes at its beginning |
| `TurnRuns.HashesText` | packages/game-kit/src/turns.ts:160-165 | what is hashed for a record is a JSON array of the previous hash, the index, the player and the move, in this order |
| `TurnRuns.StatePrints` | packages/game-kit/src/turns.ts:166-169 | whatever the rules return, the state of a sound game can be printed and is its own copy |
| `TurnEffects.FinishIff` | packages/game-kit/src/turns.ts:509-555 | what a finish does to any game: exactly when it finishes it, when it freezes it, when it waits, and when the log is asked for |
| `TurnEffects.SettledIff` | packages/game-kit/src/turns.ts:386-394 | a finish that waited finishes the game if and only if it names the log that came |
| `TurnEffects.WaitingMovesLand` | packages/game-kit/src/turns.ts:373-394 | moves that came while a log was awaited and go on from the one that comes follow it in order, none lost, and a finish that waited is settled by the log they lead to |
| `TurnEffects.ManifestIff` | packages/game-kit/src/turns.ts:429-451 | a manifest that answers the request freezes the game exactly if its sender or counts are not to be trusted, else begins the replay anew or is too late; any other changes nothing |
| `TurnEffects.CommitIff` | packages/game-kit/src/turns.ts:354-400 | a replay is decided exactly when every part is there: the log they make replaces the records if it is the one announced, continues them and is valid, else the game freezes; until then nothing happens |
| `TurnEffects.LoadIff` | packages/game-kit/src/turns.ts:574-619 | a load puts in exactly the saved log whose parts are all there, within the caps and consistent; a refused one changes nothing but that it freezes the game, unless a part is missing or the log too large |
| `TurnEffects.SavedGameLoads` | packages/game-kit/src/turns.ts:129-154 | what a sound game within its cap saved is read back by any game: the same log, state and id |
| `TurnLane.AcceptThrough` | packages/game-kit/src/turns.ts:173-244 | left undisturbed, a live move taken await by await ends as the one step that the game object takes |
| `TurnLane.CommitThrough` | packages/game-kit/src/turns.ts:354-400 | so does a replay that is validated and drained await by await |
| `TurnLane.FinishThrough` | packages/game-kit/src/turns.ts:509-555 | so does a finish |
| `TurnHistory.ReachableSound` | packages/game-kit/src/turns.ts:155-244 | over every run, handlers interleaved with the load and the timer at every await: the log is a valid hash chain in player rotation and the state its fold, if no load commits under a move that then lands |
| `TurnHistory.HarmBreaks` | packages/game-kit/src/turns.ts:194-225 | and if one does, the very next step breaks the chain |
| `TurnHistory.LoadSafeIff` | packages/game-kit/src/turns.ts:194-225 | so from any state reached, everything that can follow a load keeps the chain valid if and only if no good move whose hash is awaited lands on a log with another end |
| `TurnHistory.RunGrows` | packages/game-kit/src/turns.ts:173-490 | over every run whose load is harmless and continues the log, the log is only ever extended |
| `TurnHistory.GrowsWhenNamed` | packages/game-kit/src/turns.ts:173-175 | over every run in which no move or manifest leaves the game id out, the log is sound and only ever extended, loads included |
| `TurnHistory.ReplicasAgree` | packages/game-kit/src/turns.ts:155-237 | two replicas that share a hash at k agree on all moves up to k and on the state there, whatever each went through |
| `TurnHistory.FrozenStaysStill` | packages/game-kit/src/turns.ts:173-175 | over every run nothing thaws a frozen game, and while no replay is answered its log and state stay, whatever moves are made |
| `TurnExamples.MoveLandsOnLoadedLog` | packages/game-kit/src/turns.ts:194-225 | a run from the start in which the load commits under an awaited hash and the log is no chain any more |
| `TurnExamples.LoadDropsMove` | packages/game-kit/src/turns.ts:574-619 | a run from the start in which a load throws a move away |
| `TurnCaps.LogStaysCapped` | packages/game-kit/src/turns.ts:218-219 | over every run, interrupted or not, the log is within its size cap |
| `TurnReplay.ChunkArrives` | packages/game-kit/src/turns.ts:452-490 | a part is added, or was there already; the last one missing completes the log |
| `TurnReplay.GathersAll` | packages/game-kit/src/turns.ts:452-490 | for every order and duplication of parts the replay completes exactly when all have come |
| `TurnReplay.ReplayIsLossless` | packages/game-kit/src/turns.ts:291-400 | for any answer cut and hashed as a responder does and fitting the cap: once every part came the requester holds exactly that log and its state; until then its own |
| `TurnReplay.SnapshotIsValid` | packages/game-kit/src/turns.ts:302-314 | what a sound responder sends validates to its own state and is already a copy |
| `TurnAnswer.ReplayIff` | packages/game-kit/src/turns.ts:483-486 | for any two runs, a requester waiting for a responder's answer ends with the responder's log and state, for every order and repetition of the parts, if and only if the log's bytes and one more for every part but the first are within the cap; otherwise it ends frozen with the log it had |
| `AssetFormat.LengthsIncrease` | packages/asset-client/src/format.ts:22-27 | a longer file has a longer ciphertext |
| `AssetFormat.AcceptedExactly` | packages/asset-client/src/format.ts:29-51 | the accepted ciphertext lengths are exactly those of files of 0 to 256 MiB, and give back count and length |
| `AssetFormat.SegmentsPartition` | packages/asset-client/src/format.ts:53-81 | extents and plain starts partition ciphertext body and plaintext; only the last segment is short |
| `AssetFormat.LayoutIs` | packages/asset-client/src/format.ts:1-40 | the layout in numbers: 40 bytes of header, segments of 64 KiB each ending in a 32-byte tag, the lengths of files up to 256 MiB and of no others |
| `AssetFormat.SegmentOfIsTheOne` | packages/asset-client/src/format.ts:63-66 | segmentOf names the one segment that holds the byte |
| `BodyReader.BodyReader.Pull` | packages/asset-client/src/http.ts:110-137 | a piece is never empty, no byte is lost or read twice, and a break is told exactly once, at the end of a body that breaks |
| `BodyReader.BodyReader.ReadExactly` | packages/asset-client/src/http.ts:140-158 | exactly n bytes from the front for every cut of the body, or an error when it ends first |
| `BodyReader.BodyReader.Rest` | packages/asset-client/src/http.ts:160-169 | everything left, for every cut, or an error exactly if the body breaks |
| `BodyReader.BodyReader.Cancel` | packages/asset-client/src/http.ts:170-181 | nothing can be read after a cancel |
| `AssetFile.SegmentVerifies` | packages/asset-client/src/crypto.ts:152-183 | a segment that opens is the version's own, at its own index; opened as the last one it proves the length |
| `AssetFile.ReleasedMore` | packages/asset-client/src/client.ts:485-494 | the part cut from one segment continues what was released before |
| `AssetFile.ReleasedAll` | packages/asset-client/src/client.ts:273-294 | once the plan's last segment verified, what was released is the slice, and an open window's claimed length was proved |
| `AssetClient.AssetClient.Send` | packages/asset-client/src/client.ts:246-257 | a request's answer with a fresh body, or the error of a refused or unexpected one |
| `AssetClient.AssetClient.OpenAtStart` | packages/asset-client/src/client.ts:363-369 | header, plan and decryptor from a body that begins with the file |
| `AssetClient.AssetClient.OpenSegments` | packages/asset-client/src/client.ts:413-439 | the ranged request of the plan's segments |
| `AssetClient.AssetClient.OpenConditional` | packages/asset-client/src/client.ts:330-374 | length and tag from the first answer, conditioned on a strong tag |
| `AssetClient.AssetClient.OpenSafelisted` | packages/asset-client/src/client.ts:377-410 | ranges whose answers are compared by tag |
| `AssetClient.AssetClient.OpenWhole` | packages/asset-client/src/client.ts:446-472 | the whole file, the segments before the window read and dropped |
| `AssetClient.AssetClient.Skip` | packages/asset-client/src/client.ts:466-470 | the loop drops exactly what lies before the target |
| `AssetClient.AssetClient.OpenEncrypted` | packages/asset-client/src/client.ts:296-327 | the three strategies and the fallback between them |
| `AssetClient.AssetClient.EmitSegments` | packages/asset-client/src/client.ts:478-498 | the loop verifies each segment before a byte of it is written |
| `AssetClient.AssetClient.ReadEncryptedRange` | packages/asset-client/src/client.ts:500-521 | attempts until one is not told of a change, at most four; against any host a success is the slice of one version, and against a host that changes at most three times it succeeds (AssetChanges.ReadSucceeds) |
| `AssetClient.AssetClient.DownloadEncrypted` | packages/asset-client/src/client.ts:644-699 | attempts, the sink emptied between them, at most four; against any host a success leaves one whole version, and against a host that changes at most three times it succeeds (AssetChanges.DownloadSucceeds) |
| `AssetProofs.OpenReady` | packages/asset-client/src/client.ts:296-472 | against any host an opened read is well formed, and a tag it was held against decided whose header was used |
| `AssetProofs.OpenHolds` | packages/asset-client/src/client.ts:296-472 | against an unchanged host every strategy opens the file where the plan says |
| `AssetProofs.EmitIsGenuine` | packages/asset-client/src/client.ts:474-498 | against any host: all segments verified gives the slice of the header's version; a failure leaves a beginning of it |
| `AssetProofs.ReadIsSliceOfOneVersion` | packages/asset-client/src/client.ts:500-521 | whatever the host does, a read that succeeds returned the slice of one version |
| `AssetProofs.ReadReturnsSlice` | packages/asset-client/src/client.ts:500-521 | a read of an unchanged object returns exactly the clamped slice for every window, cut and strategy |
| `AssetProofs.EmptyWindowVerifiesLast` | packages/asset-client/src/client.ts:282-293 | an empty window still verifies the last segment, which proves the length, and releases nothing |
| `AssetProofs.DownloadIsOneVersion` | packages/asset-client/src/client.ts:644-699 | a download that returns leaves one whole version of the reported length, in at most four attempts |
| `AssetProofs.SinkIsAlwaysGenuine` | packages/asset-client/src/client.ts:219-236 | wherever a download failed the sink holds a beginning of one version |
| `AssetProofs.DownloadCompletes` | packages/asset-client/src/client.ts:644-699 | against an unchanged host a download or a resume succeeds in one attempt |
| `AssetProofs.RangedIff` | packages/asset-client/src/client.ts:108-163 | what every answer to a request for a range leads to: a restart exactly if it shows that the object is another, a body exactly if it is just the range asked for, else which error |
| `AssetProofs.AtStartIff` | packages/asset-client/src/client.ts:351-376 | a body is refused as cut off, or as no file, exactly if it ends before the header, no file has its length, or its first byte is not the format's |
| `AssetProofs.HeadIff` | packages/asset-client/src/client.ts:296-328 | in a browser a file is opened only from a HEAD that tells a length, of a body sent as it is, and of the version to be resumed; otherwise which error |
| `AssetProofs.FirstToIs` | packages/asset-client/src/client.ts:330-350 | the first request outside a browser asks for the 40 bytes of header if the window starts behind the first segment, else for everything up to the end of the segment that holds its last byte |
| `AssetChanges.ReadSucceeds` | packages/asset-client/src/client.ts:500-521 | a host that moves from stored version to stored version at most three times, between any requests, answering an If-Range that names an older one by 200: a read returns the slice of a version the host had, within four requests for each change and the first attempt |
| `AssetChanges.DownloadSucceeds` | packages/asset-client/src/client.ts:644-699 | and a download, from nothing or resumed from what may be stale, leaves one whole version that the host had, in at most one attempt more than there were changes |
| `AssetKey.EncodeBase64Url` | packages/asset-client/src/key.ts:9-32 | the loop over three bytes at a time and its two rests print the encoding |
| `AssetKey.DecodeBase64Url` | packages/asset-client/src/key.ts:35-51 | the masked accumulator yields the decoded bytes |
| `AssetKey.RoundTrip` | packages/asset-client/src/key.ts:9-51 | decoding an encoding is the identity for byte strings of any length |
| `AssetKey.ParseAssetKey` | packages/asset-client/src/key.ts:61-89 | a text is accepted if and only if it is the prefix and the encoding of some 32 bytes, which are the key |
| `SaveQueue.SaveQueue.Hydrate` | packages/game-kit/src/save.ts:75-101 | afterwards the queue is the adapter's, and what every name will hold is what it was before |
| `SaveQueue.SaveQueue.Overlay` | packages/game-kit/src/save.ts:102-104 | the loop finds the last queued write of a name |
| `SaveQueue.SaveQueue.Read` | packages/game-kit/src/save.ts:105-132 | a staged write, else the server's row, else the cache when the server is out of reach; it fails exactly if nothing is known of the name and the server is out of reach; what it returns is what the name will hold, and nothing changes that |
| `SaveQueue.SaveQueue.Restart` | packages/game-kit/src/save.ts:75-101 | a new process on the adapter's queue and the server holds every name as the old one did |
| `SaveQueue.SaveQueue.Apply` | packages/game-kit/src/save.ts:149-229 | a queued write that was already done is only noted; otherwise one conditional request |
| `SaveQueue.SaveQueue.Write` | packages/game-kit/src/save.ts:230-270 | refused exactly if nothing is known of the name and the server is out of reach; queued as the last exactly if others wait or its request did not come through; else the server holds it at once, also if the process died over it; it becomes what its name will hold and touches no other name |
| `SaveQueue.SaveQueue.Flush` | packages/game-kit/src/save.ts:271-297 | the loop takes exactly the writes off the queue, from its front, whose requests are answered, and completes exactly if all are; what every name will hold stays, and once it completes the server holds it |
| `SaveRuns.FlushStepKeeps` | packages/game-kit/src/save.ts:281-296 | one round never conflicts, and whatever became of its request every name will hold what it was going to hold |
| `SaveRuns.FlushKeeps` | packages/game-kit/src/save.ts:271-297 | a flush keeps what every name will hold; one that completes leaves the server holding it |
| `SaveRuns.AnsweredFlushCompletes` | packages/game-kit/src/save.ts:271-297 | with every request answered a flush empties the queue |
| `SaveRuns.FlushTakesTheAnswered` | packages/game-kit/src/save.ts:271-297 | a flush takes exactly the first writes whose requests are answered and completes exactly if all are |
| `SaveRuns.WriteKeeps` | packages/game-kit/src/save.ts:230-270 | an accepted write becomes what the name will hold, touches no other name and never conflicts |
| `SaveRuns.WriteIsAcceptedIff` | packages/game-kit/src/save.ts:230-270 | a write is refused exactly if nothing is known of its name and the server is out of reach; any other is queued as the last, at the revision the client last saw, or the server holds it at once |
| `SaveRuns.ReadIsDesired` | packages/game-kit/src/save.ts:105-132 | a read that returns gives the last queued write, else the row, also from the cache |
| `SaveRuns.ReadFailsIff` | packages/game-kit/src/save.ts:105-132 | a read fails exactly if nothing is known of the name and the server is out of reach, and what was read is known from then on |
| `SaveRuns.FlushDeliversTheLastAccepted` | packages/game-kit/src/save.ts:271-297 | over every run, answers lost and crashes included, a completed flush leaves the server with the last accepted change of each name |
| `SaveRuns.OfflineWriteIsDelivered` | packages/game-kit/src/save.ts:230-297 | over every run: once a name was read, a later write of it with the server out of reach is accepted, and a completed flush delivers it unless it was written again |
| `SaveRuns.ReadsTheLastAccepted` | packages/game-kit/src/save.ts:105-132 | over every run a read that returns gives the last accepted change |
| `SaveForeign.FlushKeepsForeign` | packages/game-kit/src/save.ts:180-228 | a flush, however far it gets, never overwrites a row that another client wrote since: the row and the write that waits on it both stay |
| `SaveForeign.WriteKeepsForeign` | packages/game-kit/src/save.ts:230-270 | a write from a client that saw another revision leaves the row alone: refused if the server says so, queued if it could not be asked |
| `SaveForeign.FlushedIsNewer` | packages/game-kit/src/save.ts:180-228 | the row of a write that a flush got done is newer than the revision the write was made on |
| `Documents.AdmitsIffLiveToken` | packages/repository-dynamodb/src/dynamo.ts:162-192 | the three backends' conditions all say that the live row carries the expected token, unswept expired rows included |
| `Documents.LivesFor` | packages/repository-dynamodb/src/dynamo.ts:76-93 | how long an untouched document lives on each backend, at every later moment |
| `Documents.AdmittedReadIsLive` | packages/repository-redis/src/redis.ts:37-46 | a conditional write that is admitted found the very document its caller read, also after it changed and changed back, and however late or often it is carried out |
| `Documents.CarriedIsEdit` | packages/repository/src/document/write.ts:62-80 | each copy of a write that is admitted maps the live document to what its call's modifier makes of it, one that is not changes nothing, and a call that is answered is told which |
| `Documents.UndisturbedSucceeds` | packages/repository/src/document/write.ts:44-81 | from any state a call that nobody comes between succeeds at once, with what its modifier makes of the live document, or of the empty one as version one, and that is live from then on |
| `Documents.SerialHistory` | packages/repository/src/document/write.ts:35-81 | over every interleaving of calls, overwrites, truncations and expiry, with writes lost, late and carried out again: the changes form one serial history and each edit in it is its modifier's of the document before; no call tries more often than it may, and none gives up before |
| `Documents.ExactlyOnceIff` | packages/repository/src/document/write.ts:62-80 | a call took effect exactly once if it succeeded and never if it gave up or threw, if and only if no write of its was carried out unheard |
| `Documents.EditAppliedTwice` | packages/repository-redis/src/redis.ts:118-135 | a run in which a resent write is refused by its own first copy, and one call that succeeds counts twice |
| `Documents.VersionCountsEdits` | packages/repository/src/document/write.ts:62-74 | over every run in which only the calls write and nothing expires, the version counts the edits carried out, and the calls that succeeded if every answer was heard |
| `Documents.EditsContentIff` | packages/repository/src/document/write.ts:25-33 | every modifier is applied to the stored content exactly if that content is truthy or the empty value itself |
| `Documents.FalsyContentIsLost` | packages/repository/src/document/write.ts:31 | a stored zero is edited as the empty value |
| `MemoryRepository.MemoryRepository.Live` | packages/repository/src/memory.ts:30-39 | an entry is live exactly if it has no deadline or the deadline is not past |
| `MemoryRepository.MemoryRepository.Write` | packages/repository/src/memory.ts:41-50 | one key is set, the others stay |
| `MemoryRepository.MemoryRepository.Delete` | packages/repository/src/memory.ts:60-63 | one key is removed |
| `MemoryRepository.MemoryRepository.GetRevision` | packages/repository/src/memory.ts:75-82 | the live document and its token |
| `MemoryRepository.MemoryRepository.CompareAndSet` | packages/repository/src/memory.ts:83-95 | written exactly if the live token is the expected one |
| `MemoryRepository.MemoryRepository.EditDocument` | packages/repository/src/document/write.ts:44-81 | the retry loop, with the store replaced between its reads and writes: the first attempt that leaves the document as it was read succeeds, with the edit of that document and its time to live; the call gives up exactly if there is none among those it may make |
| `ActorQueue.DrainStepKeeps` | packages/actor-system/src/process.ts:288-328 | every step of producers, drainers, crashes and commands carried out late or again keeps the order and what the drainer knows of the head |
| `ActorQueue.DrainsAll` | packages/actor-system/src/process.ts:288-328 | a drainer whose commands are answered runs the handler once for every message that waits, in order, and leaves the list empty |
| `ActorQueue.HandledInOrder` | packages/actor-system/src/process.ts:288-328 | over every run popped messages are the first ones pushed, and the handler is run for messages in the order of the pushes, never going back |
| `ActorQueue.HandledFirstIff` | packages/actor-system/src/process.ts:304-322 | every message is handled before its pop if and only if each LPOP carried out is the first since the last handled message was peeked at, or meets an empty list |
| `ActorQueue.HandledFirstWhenOnce` | packages/actor-system/src/process.ts:304-322 | so it is when every LPOP is carried out once and before it is given up |
| `ActorQueue.ResentPopSkips` | packages/actor-system-redis/src/queue.ts:67-75 | a run in which a resent LPOP pops a message nobody handled |
| `ActorQueue.AtLeastOnceInOrder` | packages/actor-system/src/process.ts:264-328 | with clean pops the handler's log without adjacent repeats is the pushed log up to the head of the queue, with or without it, across crashes and replacements |
| `ActorQueue.AtLeastOnceIff` | packages/actor-system/src/process.ts:288-328 | in every state of a run that log follows the pushes so, if and only if the pops are clean |
| `ActorFlush.DeliveredAtMostOnce` | packages/actor-system-redis/src/queue.ts:85-98 | over every run, LTRIMs late or carried out again included, batches are disjoint pieces of the pushes in order, and what is left are the last ones pushed |
| `ActorFlush.FlushTakesAll` | packages/actor-system-redis/src/queue.ts:85-98 | a flush by itself, also after one that was given up, delivers everything that waits, once, and leaves the list empty |
| `ActorFlush.NothingUnreadIff` | packages/actor-system-redis/src/queue.ts:85-98 | every message that left the list was read by the flush that took it off, if and only if each LTRIM carried out was its flush's first, or nothing was pushed since, or the list was empty |
| `ActorFlush.NothingUnreadWhenOnce` | packages/actor-system-redis/src/queue.ts:85-98 | so it is when every LTRIM is carried out once and before its flush is given up |
| `ActorFlush.TrimsTile` | packages/actor-system-redis/src/queue.ts:85-98 | every message pushed is on the list or was taken off it by exactly one LTRIM |
| `ActorFlush.ResentTrimLosesUnread` | packages/actor-system-redis/src/queue.ts:85-98 | a run in which a resent LTRIM takes off a message nobody read and the flush returns as if nothing had happened |
| `ActorFlush.FlushRefinesAtomicIff` | packages/actor-system/src/inMemory.ts:105-113 | without abandoned flushes the two commands give in every state the batches and the rest of the atomic in-memory queue, if and only if the LTRIMs are clean |
| `ActorLock.OnlyTheMinterTouches` | packages/actor-system-redis/src/lock.ts:14-27 | a live token is deleted or its lease extended only by a command of the process that minted it, however late it is carried out, by expiry or by hand |
| `ActorLock.OwnershipEndsOnly` | packages/actor-system-redis/src/lock.ts:46-57 | ownership ends only by the owner's release, expiry or a break |
| `ActorLock.BeatProvesOwnership` | packages/actor-system/src/lockHeartbeat.ts:68-90 | a beat that ends without error or loss owned the key at some moment since its last command was sent |
| `ActorLock.LossIsReportedOnce` | packages/actor-system/src/eventLoop.ts:78-100 | over every run a loss is reported at most once, and the loop's poll begins a flush exactly until then |
| `ActorLease.RenewedNeverExpires` | packages/actor-system/src/lockHeartbeat.ts:68-90 | over every run in which a process's renewals of its key are carried out less than the lease apart, the key never expires |
| `ActorLease.RenewedStaysOwner` | packages/actor-system-redis/src/lock.ts:102-129 | and it stays that process's until it releases it or somebody breaks it |
| `ActorLease.ExpiresWhenLeaseIsOver` | packages/actor-system-redis/src/lock.ts:20-21 | a key can expire exactly when the whole lease has passed since it was taken or last renewed |
| `ActorLease.NoTimeoutNeverExpires` | packages/actor-system-redis/src/lock.ts:20-21 | without a timeout it never does |
| `ActorLoss.ReportedLossIsTrue` | packages/actor-system/src/lockHeartbeat.ts:68-90 | over every run in which no SET NX of a process goes unheard, written once and not given up after, it reports no loss of a key that is its own when it reports, whatever answers its other commands and other processes lose |
| `ActorMisled.MisledIff` | packages/actor-system-redis/src/lock.ts:67-83 | in every state reached with its loop running, a process can come to report a loss of its own key with no further SET NX unheard, if and only if one of its succeeded or may still be carried out without its hearing of it |
| `ActorSurprises.LostAnswerReportsLoss` | packages/actor-system/src/lockHeartbeat.ts:76-89 | a run in which every command is written once and none is carried out late: an answer to SET NX is lost, and the very owner reports a loss at its next beat |
| `ActorSurprises.ResentAcquireReportsLoss` | packages/actor-system-redis/src/lock.ts:67-83 | a run in which a resent SET NX is refused by the process's own key and the very owner reports a loss |
| `ActorSurprises.LateAcquireOwns` | packages/actor-system-redis/src/lock.ts:67-83 | a run in which an acquisition that timed out is carried out later, and a process whose loop is over owns the key |
| `ActorAfter.BeatCanOutliveRelease` | packages/actor-system/src/eventLoop.ts:107-134 | a run in which a beat takes the lock again after its loop released it |
| `ActorAfter.SilenceIsFinal` | packages/actor-system/src/eventLoop.ts:107-134 | a process whose loop is over, with no beat and no SET NX under way, never comes to own the key again |
| `ActorAfter.OwnsAgainIff` | packages/actor-system/src/lockHeartbeat.ts:64-90 | after its loop is over a process that does not own the key can come to own it again if and only if a beat of its is not over or a SET NX of its is on its way |
| `ActorAfter.ReleaseFrees` | packages/actor-system/src/eventLoop.ts:107-134 | a loop that ends, or whose release failed once, lets its key go as soon as the release it then sends is carried out |
| `ActorProcess.InMemoryQueue.Size` | packages/actor-system/src/inMemory.ts:79-81 | the number of messages |
| `ActorProcess.InMemoryQueue.Push` | packages/actor-system/src/inMemory.ts:82-90 | at the back |
| `ActorProcess.InMemoryQueue.Pop` | packages/actor-system/src/inMemory.ts:91-97 | from the front |
| `ActorProcess.InMemoryQueue.Peek` | packages/actor-system/src/inMemory.ts:98-104 | the front, unchanged |
| `ActorProcess.InMemoryQueue.Flush` | packages/actor-system/src/inMemory.ts:105-113 | everything at once |
| `ActorProcess.InMemoryQueue.ProcessQueueInLock` | packages/actor-system/src/process.ts:288-328 | the drain loop, with pushes during each handler and handlers that throw: what was handled left the queue in order, a message whose handling threw is still first, and otherwise it stops only when no longer alive or empty |
| `ActorProcess.RedisQueue.Flush` | packages/actor-system-redis/src/queue.ts:85-98 | two commands with pushes between, each unsent, unanswered, answered or carried out twice: a lost answer to LTRIM loses exactly the messages read, one carried out twice takes unread ones exactly if anything was pushed |
| `ActorProcess.RedisLock.TryAcquire` | packages/actor-system-redis/src/lock.ts:67-83 | a token is kept only once its acquisition was answered, and the key then expires a whole timeout from now; a free key is refused exactly if the SET NX was resent and had taken it, and a lost answer leaves the key with a token that is not kept |
| `ActorProcess.RedisLock.Release` | packages/actor-system-redis/src/lock.ts:84-101 | the key goes exactly if it holds the token that is kept and the command got through; true is answered exactly if it came back at the first try |
| `ActorProcess.RedisLock.Renew` | packages/actor-system-redis/src/lock.ts:102-129 | true exactly if the key holds the token that is kept and the command came back; then, and also when only the answer was lost, it expires a whole timeout from now, and with no timeout its deadline stays; no other key changes |
| `ActorProcess.RedisLock.Beat` | packages/actor-system/src/lockHeartbeat.ts:68-90 | true exactly if the kept token was renewed or the free key taken, and then the key expires a whole timeout from now; false is said of its own key exactly if the SET NX was resent after it took a free key, or the key held a token of the process's that it did not know |

## Left out

- Text.ToInteger: models `Number()` on decimal integer literals with white space around them; hexadecimal, exponent and fractional forms count as no integer.
- CanonicalJson.CanonicalIffSame: numbers are integers; the shortest printing of fractions is not modelled, and arrays with holes, accessors, symbols, cycles and class instances, which the printer refuses, are not values of the model.
- CanonicalJson.CanonicalReadsBack: the reader reads JSON texts without white space, and integers only.
- CanonicalJson.Encode: the loop over an array's items is modelled as a loop; an object's members are printed by the function.
- CanonicalJson.NormalizeIsStable: JavaScript lists keys that look like array indices first; the model keeps the canonical order, which no property depends on.
- NaiveSocket.NaiveSocket.OnConnect: the listener may send; its other calls, and calls made from the other notifications or from inside a consumer or a matcher, are not modelled.
- SocketRuns.SettledInTime: timers fire exactly when due; a late timer settles as late as it fires.
- SocketWrites.CarriedOnceIff: speaks of sockets without a consumer of pushed data whose opening does not throw, and of runs without `disconnect`, `reset` and late reports of writes; a request counts as carried when its bytes are written and no report says that nothing was sent.
- SocketAttribution.EachReplyReachesItsOwner: assumes that requests that expect no response get no bytes, so push data on a request connection is out; for a subscriber's stream see PushFrame.DeliversFramesForEveryCut.
- Works are known by number instead of by reference, and the text decoder that joins bytes cut inside a character is not modelled: chunks are text, cut anywhere between code units.
- Reply.FramesFlatReply: bulk bodies hold no CRLF and arrays are flat, as the source says of itself.
- Serialize.StreamIsReadBack: the server's inline reader knows white space and refuses quotes; its quoting rules and its limits on sizes are not modelled.
- TurnGame.TurnGame.Accept: payloads are well-typed records; events, elapsed times, persistence after each move and the choice of the responder among the room's members are not modelled.
- TurnGame.TurnGame.OnFinish: the result itself, saving it and retrying that are not modelled.
- TurnGame.TurnGame.ReplyLog: the announcement before the manifest, the pause between two parts and the finish message after the last are not modelled; the requester's side of a finish is TurnGame.TurnGame.OnFinish.
- TurnReplay.ReplayIsLossless: chunk messages only come between the manifest and the end; live moves that wait meanwhile are in the buffer from the start.
- TurnAnswer.ReplayIff: the hashes in the responder's log are 64 hexadecimal digits, as SHA-256 is printed; the requester's log is a prefix of the responder's.
- AssetProofs.DownloadIsOneVersion: assumes that an entity tag names one version and that the resumed bytes are a beginning of it.
- AssetClient.AssetClient.DownloadEncrypted: progress reports, a sink that fails and cancelling every body that was opened are not modelled.
- Plain reads and downloads, whole-file reads, key derivation and the counter-mode keystream are not modelled.
- SaveRuns.FlushDeliversTheLastAccepted: one client writes, the queue adapter works, and rows do not expire; then no conflict arises and merging is never reached, so merging is not modelled. A request is carried out, if at all, once and before its client gives it up: a first write carried out late, after its entry was removed, would bring the entry back.
- SaveForeign.FlushKeepsForeign: no merge policy is given; merging is not modelled.
- AssetChanges.ReadSucceeds: speaks of a host with distinct strong entity tags, one for each version.
- TurnEffects.SavedGameLoads: the saved parts are what the game's log was cut into; the store that keeps them and the revision in their names are not modelled.
- SaveQueue.SaveQueue.Write: counters, one-time claims, time to live and the size limit of a value are not modelled.
- Documents.SerialHistory: stored values are immutable, so a modifier that changes its argument in place is not modelled; a repository without conditional writes is out. DynamoDB's conditions and deadlines carry the caller's clock; the model uses one clock, read when the write is carried out.
- ActorQueue.AtLeastOnceInOrder: one drainer at a time; two drainers after a lease was lost in the middle of a handler are out, and lists do not expire.
- ActorLock.OwnershipEndsOnly: each loop has a lock object of its own; in the source two loops that follow each other on one lock object share its tokens, and a late beat of the first whose renewal is refused forgets the second's token.
- ActorLock.LossIsReportedOnce: speaks of flushes begun; a flush begun before the loss may still be carried out after it.
- Bulk consumption, awaiters, shifting to a new actor, back-off and sleeping are not modelled.
- HTTP clients, handlers, sessions, rooms, boards and the other modules of the repository are not modelled.
