/** From one player's game to another's: what a responder in any state it can reach sends, and
    what the requester, in any state it can reach, makes of it. */
module TurnAnswer {
  import opened Text
  import opened CanonicalJson
  import opened Pieces
  import opened TurnLog
  import opened TurnSteps
  import opened TurnRuns
  import opened TurnLane
  import opened TurnHistory
  import opened TurnSizes
  import opened TurnCaps
  import opened TurnReplay

  /** What `replyLog` sends: a copy of the log, in the parts that `Chunks` cuts. */
  predicate Answers(rules: Rules, responder: Game, a: Answer) {
    && responder.gameId == Some(a.gameId) && a.snapshot == CopyLog(responder.records) && a.state == responder.state
    && Flatten(a.parts) == a.snapshot
    && forall k :: 0 <= k < |a.parts| ==> |a.parts[k]| > 0 && LogFits(rules, a.parts[k], 7000)
  }

  /** The log, and a byte more for every part but the first, is within the requester's cap. */
  predicate Fitting(rules: Rules, a: Answer) {
    match RecordBytes(rules, a.snapshot)
    case None => false
    case Some(size) => |a.parts| == 0 || size + |a.parts| - 1 <= rules.maxBytes
  }

  lemma {:induction false} AnswerIsSent(rules: Rules, responder: Game, a: Answer)
    requires Playable(rules) && Sound(rules, responder) && FitsCap(rules, responder.records)
    requires Hashes(responder.records) && Answers(rules, responder, a)
    ensures Sent(rules, a)
  {
    SnapshotIsValid(rules, responder);
    LogBytes(rules, responder.records);
    CopyLogWeighs(responder.records);
    if |responder.records| > 0 {
      FewEnough(rules, responder.records);
    }
  }

  lemma {:induction false} FittingIffPartsFit(rules: Rules, a: Answer)
    requires Playable(rules) && Sent(rules, a)
    ensures Fitting(rules, a) <==> PartsFit(rules, a)
  {
    LogBytes(rules, a.snapshot);
    if |a.parts| > 0 {
      CutTakesMore(rules, a.parts);
    }
  }

  // ---- A log that is too large in parts ------------------------------------------------------------

  lemma {:induction false} NeverComplete(rules: Rules, a: Answer, received: map<int, seq<TurnRecord>>)
    requires Genuine(a, received) && !PartsFit(rules, a) && HeldBytes(rules, received, |a.parts|, 0) <= rules.maxBytes
    ensures |received| < |a.parts| && !(Indices(0, |a.parts|) <= received.Keys)
  {
    assert a.parts[0..] == a.parts;
    Complete(a, received);
    if forall k :: 0 <= k < |a.parts| ==> k in received {
      HeldAll(rules, received, a.parts, 0);
    }
  }

  /** Some of the parts are held, and there was room for them. */
  predicate Holding(rules: Rules, g: Game, a: Answer, received: map<int, seq<TurnRecord>>, r: Game) {
    r == Gathering(rules, g, a, received) && Genuine(a, received) && HeldBytes(rules, received, |a.parts|, 0) <= rules.maxBytes
  }

  predicate GivenUp(g: Game, r: Game) {
    r.frozen && r.assembly.None? && Untouched(g, r)
  }

  /** The branch of a chunk that is new and has no room. */
  lemma ChunkTooLarge(rules: Rules, g: Game, net: Network, asm: Assembly, c: Chunk, size: nat)
    requires |rules.players| > 0 && g.assembly == Some(asm) && g.gameId == c.gameId && g.requestId == Some(c.requestId)
    requires 0 <= c.part < asm.manifest.chunks && c.part !in asm.parts && |c.records| > 0
    requires RecordBytes(rules, c.records) == Some(size) && asm.totalBytes + size > rules.maxBytes
    ensures GivenUp(g, OnChunk(rules, g, net, asm.from, c).game)
  {
  }

  lemma {:induction false} OverfullNewChunk(
    rules: Rules, g: Game, net: Network, a: Answer, received: map<int, seq<TurnRecord>>, k: nat)
    requires Playable(rules) && Sent(rules, a) && PartsCopied(a) && Waiting(g, a) && !PartsFit(rules, a)
    requires Holding(rules, g, a, received, Gathering(rules, g, a, received)) && k < |a.parts| && k !in received
    ensures var r := OnChunk(rules, Gathering(rules, g, a, received), net, a.responder, ChunkOf(a, k)).game;
      GivenUp(g, r) || Holding(rules, g, a, received[k := a.parts[k]], r)
  {
    hide OnChunk, CheckChunk, CommitAssembly;
    var gathering, more, size := Gathering(rules, g, a, received), received[k := a.parts[k]], SizeOf(rules, a.parts[k]);
    HeldMore(rules, a, received, k);
    if HeldBytes(rules, received, |a.parts|, 0) + size <= rules.maxBytes {
      ChunkTaken(rules, g, a, received, k, size);
      GenuineMore(a, received, k);
      NeverComplete(rules, a, more);
      Commits(rules, g, net, a, more);
      OnChunkCommits(rules, gathering, net, a.responder, ChunkOf(a, k), Gathering(rules, g, a, more), Gathering(rules, g, a, more));
    } else {
      ChunkTooLarge(rules, gathering, net, Held(rules, a, received), ChunkOf(a, k), size);
    }
  }

  lemma {:induction false} OverfullChunk(
    rules: Rules, g: Game, net: Network, a: Answer, received: map<int, seq<TurnRecord>>, k: nat)
    requires Playable(rules) && Sent(rules, a) && PartsCopied(a) && Waiting(g, a) && !PartsFit(rules, a)
    requires Holding(rules, g, a, received, Gathering(rules, g, a, received)) && k < |a.parts|
    ensures var r := OnChunk(rules, Gathering(rules, g, a, received), net, a.responder, ChunkOf(a, k)).game;
      GivenUp(g, r) || Holding(rules, g, a, received[k := a.parts[k]], r)
  {
    hide CheckChunk, CommitAssembly;
    if k in received {
      ChunkAgain(rules, g, a, received, k);
      assert received[k := a.parts[k]] == received;
    } else {
      OverfullNewChunk(rules, g, net, a, received, k);
    }
  }

  lemma {:induction false} OverfullDelivery(
    rules: Rules, g: Game, a: Answer, received: map<int, seq<TurnRecord>>, d: Delivery)
    requires Playable(rules) && Sent(rules, a) && PartsCopied(a) && Waiting(g, a) && !PartsFit(rules, a)
    requires Holding(rules, g, a, received, Gathering(rules, g, a, received)) && d.part < |a.parts|
    ensures var r := Deliver(rules, a)(Gathering(rules, g, a, received), d);
      GivenUp(g, r) || Holding(rules, g, a, received[d.part := a.parts[d.part]], r)
  {
    OverfullChunk(rules, g, d.net, a, received, d.part);
  }

  lemma {:induction false} OverfullDeliveries(
    rules: Rules, g: Game, a: Answer, received: map<int, seq<TurnRecord>>, r: Game, deliveries: seq<Delivery>)
    requires Playable(rules) && Sent(rules, a) && PartsCopied(a) && Waiting(g, a) && !PartsFit(rules, a)
    requires Holding(rules, g, a, received, r) && Deliverable(a, deliveries)
    requires Indices(0, |a.parts|) <= received.Keys + PartsOf(deliveries)
    ensures GivenUp(g, DeliverAll(Deliver(rules, a), r, deliveries))
    decreases |deliveries|
  {
    hide Deliver, Sent, Waiting, PartsFit, PartsCopied, Gathering, HeldBytes, GivenUp;
    if |deliveries| == 0 {
      assert received.Keys + PartsOf(deliveries) == received.Keys;
      NeverComplete(rules, a, received);
    } else {
      var d := deliveries[0];
      var more := received[d.part := a.parts[d.part]];
      OverfullDelivery(rules, g, a, received, d);
      var next := Deliver(rules, a)(r, d);
      assert more.Keys + PartsOf(deliveries[1..]) == received.Keys + PartsOf(deliveries);
      if Holding(rules, g, a, more, next) {
        OverfullDeliveries(rules, g, a, more, next, deliveries[1..]);
      } else {
        GivenUpDeliveries(rules, g, a, next, deliveries[1..]);
      }
    }
  }

  lemma {:induction false} GivenUpDeliveries(rules: Rules, g: Game, a: Answer, r: Game, deliveries: seq<Delivery>)
    requires |rules.players| > 0 && GivenUp(g, r)
    ensures GivenUp(g, DeliverAll(Deliver(rules, a), r, deliveries))
  {
    DeafDeliveries(rules, a, r, deliveries);
  }

  lemma {:induction false} DeafDeliveries(rules: Rules, a: Answer, r: Game, deliveries: seq<Delivery>)
    requires |rules.players| > 0 && r.assembly.None?
    ensures DeliverAll(Deliver(rules, a), r, deliveries) == r
    decreases |deliveries|
  {
    if |deliveries| > 0 {
      Deaf(rules, a, r, deliveries[0]);
      DeafDeliveries(rules, a, r, deliveries[1..]);
    }
  }

  lemma {:induction false} OverfullBegins(rules: Rules, g: Game, net: Network, a: Answer)
    requires Playable(rules) && Sent(rules, a) && !PartsFit(rules, a) && Waiting(g, a)
    ensures Holding(rules, g, a, map[], OnManifest(rules, g, net, a.responder, ManifestOf(a)).game)
  {
    hide OnManifest;
    ManifestLeads(rules, g, net, a);
    NothingHeld(rules, |a.parts|, 0);
    NeverComplete(rules, a, map[]);
  }

  lemma {:induction false} OverfullFreezes(rules: Rules, g: Game, net: Network, a: Answer, deliveries: seq<Delivery>)
    requires Playable(rules) && Sent(rules, a) && !PartsFit(rules, a) && Waiting(g, a) && Deliverable(a, deliveries)
    requires Indices(0, |a.parts|) <= PartsOf(deliveries)
    ensures GivenUp(g, DeliverAll(Deliver(rules, a), OnManifest(rules, g, net, a.responder, ManifestOf(a)).game, deliveries))
  {
    hide OnManifest, Deliver, Waiting, PartsFit;
    OverfullBegins(rules, g, net, a);
    SentCopied(a);
    var none: map<int, seq<TurnRecord>> := map[];
    assert none.Keys + PartsOf(deliveries) == PartsOf(deliveries);
    OverfullDeliveries(rules, g, a, none, OnManifest(rules, g, net, a.responder, ManifestOf(a)).game, deliveries);
  }

  // ---- Between two runs -------------------------------------------------------------------------------

  /** Whatever the two players went through: a requester whose log is a prefix of the responder's
      ends with the responder's log, for every order and repetition of the parts, if the log still
      fits when cut into parts; and otherwise, though the responder could hold that log, it ends
      frozen with the log it had. */
  lemma {:induction false} ReplayIff(
    rules: Rules, theirs: seq<Happening>, mine: seq<Happening>, a: Answer, net: Network, deliveries: seq<Delivery>)
    requires Playable(rules)
    requires Possible(rules, NewWorld(rules), theirs) && AllHarmless(rules, NewWorld(rules), theirs)
    requires Possible(rules, NewWorld(rules), mine) && AllHarmless(rules, NewWorld(rules), mine)
    requires Answers(rules, Run(rules, NewWorld(rules), theirs).game, a)
    requires Hashes(Run(rules, NewWorld(rules), theirs).game.records)
    requires Waiting(Run(rules, NewWorld(rules), mine).game, a)
    requires Deliverable(a, deliveries) && Indices(0, |a.parts|) <= PartsOf(deliveries)
    ensures var g := Run(rules, NewWorld(rules), mine).game;
      var r := DeliverAll(Deliver(rules, a), OnManifest(rules, g, net, a.responder, ManifestOf(a)).game, deliveries);
      if Fitting(rules, a) then ReplayedInto(rules, g, a, r) else GivenUp(g, r)
  {
    var responder, g := Run(rules, NewWorld(rules), theirs).game, Run(rules, NewWorld(rules), mine).game;
    ReachableSound(rules, theirs);
    ReachableSound(rules, mine);
    LogStaysCapped(rules, NewWorld(rules), theirs);
    AnswerIsSent(rules, responder, a);
    FittingIffPartsFit(rules, a);
    if Fitting(rules, a) {
      ReplayIsLossless(rules, g, net, a, deliveries);
    } else {
      OverfullFreezes(rules, g, net, a, deliveries);
    }
  }
}
