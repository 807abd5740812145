/** Sending a whole log in parts: whatever the order and duplication of the parts, the requester
    ends with exactly the log that was sent. */
module TurnReplay {
  import opened Text
  import opened CanonicalJson
  import opened Pieces
  import opened TurnLog
  import opened TurnSteps
  import opened TurnRuns
  import opened TurnLane
  import opened TurnHistory
  import opened TurnSizes
  import opened TurnCaps

  /** An answer to a log request: the responder's snapshot, the parts it was cut into, and the
      state it leads to, which is not sent. */
  datatype Answer = Answer(
    gameId: Text, requestId: Text, responder: Text, snapshot: seq<TurnRecord>, parts: seq<seq<TurnRecord>>, state: Value)

  function ManifestOf(a: Answer): Manifest {
    Manifest(Some(a.gameId), a.requestId, |a.snapshot|, LastHash(a.snapshot), |a.parts|)
  }

  function ChunkOf(a: Answer, k: nat): Chunk
    requires k < |a.parts|
  {
    Chunk(Some(a.gameId), a.requestId, k, a.parts[k])
  }

  function Indices(i: nat, count: nat): (r: set<int>)
    ensures forall k :: k in r <==> i <= k < count
    ensures i <= count ==> |r| == count - i
    decreases count - i
  {
    if i >= count then {} else {i} + Indices(i + 1, count)
  }

  /** The snapshot of a sound responder. */
  predicate LogRight(rules: Rules, a: Answer)
    requires |rules.players| > 0
  {
    && Validated(rules, a.snapshot) == Some(a.state) && PrintableLog(a.snapshot) && CopyLog(a.snapshot) == a.snapshot
    && IsHash(LastHash(a.snapshot)) && |a.snapshot| <= rules.maxBytes / 80
  }

  /** Its parts as `Chunks` cuts them. */
  predicate PartsRight(rules: Rules, a: Answer) {
    && (forall k :: 0 <= k < |a.parts| ==> |a.parts[k]| > 0 && RecordBytes(rules, a.parts[k]).Some?)
    && Flatten(a.parts) == a.snapshot
  }

  /** Together the parts are within the cap the requester adds them up to. */
  predicate PartsFit(rules: Rules, a: Answer) {
    PartBytes(rules, a.parts) <= rules.maxBytes
  }

  predicate Sent(rules: Rules, a: Answer)
    requires |rules.players| > 0
  {
    LogRight(rules, a) && PartsRight(rules, a)
  }

  predicate PartsCopied(a: Answer) {
    forall k :: 0 <= k < |a.parts| ==> CopyLog(a.parts[k]) == a.parts[k]
  }

  /** The requester waits for this answer, and its own log is a prefix of the snapshot. */
  predicate Waiting(g: Game, a: Answer) {
    && g.gameId == Some(a.gameId) && g.requestId == Some(a.requestId) && g.requestedFrom == Some(a.responder)
    && (g.assembly.Some? ==> g.assembly.value.from == a.responder)
    && SameHashes(g.records, a.snapshot)
  }

  /** The game while some of the parts have come. */
  function Gathering(rules: Rules, g: Game, a: Answer, received: map<int, seq<TurnRecord>>): Game {
    g.(assembly := Some(Held(rules, a, received)))
  }

  predicate Genuine(a: Answer, received: map<int, seq<TurnRecord>>) {
    forall k <- received :: 0 <= k < |a.parts| && received[k] == a.parts[k]
  }

  // ---- Counting ----------------------------------------------------------------------------------

  lemma SubsetCount(a: set<int>, b: set<int>)
    requires a <= b
    ensures |a| <= |b| && (|a| == |b| ==> a == b)
    decreases |a|
  {
    assert b == a + (b - a);
    assert |b| == |a| + |b - a|;
  }

  lemma {:induction false} PartsNonEmpty(parts: seq<seq<TurnRecord>>)
    requires forall k :: 0 <= k < |parts| ==> |parts[k]| > 0
    ensures |parts| <= |Flatten(parts)|
    decreases |parts|
  {
    if |parts| > 0 {
      PartsNonEmpty(parts[1..]);
    }
  }

  lemma {:induction false} AssembledAll(a: Answer, received: map<int, seq<TurnRecord>>, i: nat)
    requires Genuine(a, received) && i <= |a.parts| && forall k :: 0 <= k < |a.parts| ==> k in received
    ensures Assembled(received, i, |a.parts|, Flatten(a.parts[..i])) == Some(Flatten(a.parts))
    decreases |a.parts| - i
  {
    if i < |a.parts| {
      FlattenMore(a.parts, i);
      AssembledAll(a, received, i + 1);
    } else {
      assert a.parts[..i] == a.parts;
    }
  }

  lemma FlattenMore(parts: seq<seq<TurnRecord>>, i: nat)
    requires i < |parts|
    ensures Flatten(parts[..i + 1]) == Flatten(parts[..i]) + parts[i]
  {
    assert parts[..i + 1] == parts[..i] + [parts[i]];
    FlattenSnoc(parts[..i], parts[i]);
  }

  lemma CopiedParts(a: Answer, k: nat, count: nat)
    requires k < count <= |a.parts| && CopyLog(Flatten(a.parts[..count])) == Flatten(a.parts[..count])
    ensures CopyLog(a.parts[k]) == a.parts[k]
    decreases count
  {
    var before, last := Flatten(a.parts[..count - 1]), a.parts[count - 1];
    assert a.parts[..count] == a.parts[..count - 1] + [last];
    FlattenSnoc(a.parts[..count - 1], last);
    var log := before + last;
    assert forall i :: 0 <= i < |log| ==> CopyRecord(log[i]) == log[i];
    forall i | 0 <= i < |before|
      ensures CopyRecord(before[i]) == before[i]
    {
      assert before[i] == log[i];
    }
    forall i | 0 <= i < |last|
      ensures CopyRecord(last[i]) == last[i]
    {
      assert last[i] == log[|before| + i];
    }
    if k < count - 1 {
      CopiedParts(a, k, count - 1);
    }
  }

  // ---- One chunk -------------------------------------------------------------------------------------

  lemma Complete(a: Answer, received: map<int, seq<TurnRecord>>)
    requires Genuine(a, received)
    ensures |received| <= |a.parts|
    ensures |received| == |a.parts| <==> forall k :: 0 <= k < |a.parts| ==> k in received
  {
    SubsetCount(received.Keys, Indices(0, |a.parts|));
    assert |received| == |received.Keys|;
    if forall k :: 0 <= k < |a.parts| ==> k in received {
      assert received.Keys == Indices(0, |a.parts|);
    }
  }

  /** The game once everything has come. */
  function Restored(rules: Rules, g: Game, net: Network, a: Answer): Game
    requires |rules.players| > 0
  {
    Replace(rules, g, net, a.snapshot, a.state).game
  }

  function Held(rules: Rules, a: Answer, received: map<int, seq<TurnRecord>>): Assembly {
    Assembly(ManifestOf(a), a.responder, received, HeldBytes(rules, received, |a.parts|, 0))
  }

  lemma JudgesAnswer(rules: Rules, g: Game, a: Answer, received: map<int, seq<TurnRecord>>)
    requires |rules.players| > 0 && LogRight(rules, a) && Flatten(a.parts) == a.snapshot
    requires SameHashes(g.records, a.snapshot) && Genuine(a, received)
    ensures Judge(g, Held(rules, a, received)) == if |received| == |a.parts| then Assembles(a.snapshot) else Missing
    ensures Worth(rules, a.snapshot) == Some(a.state)
  {
    if |received| == |a.parts| {
      Complete(a, received);
      AssembledAll(a, received, 0);
      assert a.parts[..0] == [];
    }
  }

  /** Where a game that gathers stands: all there, or still waiting. */
  function Standing(rules: Rules, g: Game, net: Network, a: Answer, received: map<int, seq<TurnRecord>>): Game
    requires |rules.players| > 0
  {
    if |received| == |a.parts| then Restored(rules, Gathering(rules, g, a, received), net, a)
    else Gathering(rules, g, a, received)
  }

  lemma Commits(rules: Rules, g: Game, net: Network, a: Answer, received: map<int, seq<TurnRecord>>)
    requires |rules.players| > 0 && LogRight(rules, a) && Flatten(a.parts) == a.snapshot
    requires SameHashes(g.records, a.snapshot) && Genuine(a, received)
    ensures CommitAssembly(rules, Gathering(rules, g, a, received), net).game == Standing(rules, g, net, a, received)
  {
    JudgesAnswer(rules, Gathering(rules, g, a, received), a, received);
  }

  lemma ManifestStarts(rules: Rules, g: Game, net: Network, a: Answer)
    requires |rules.players| > 0 && Waiting(g, a) && |a.parts| <= |a.snapshot| <= rules.maxBytes / 80
    requires IsHash(LastHash(a.snapshot))
    ensures OnManifest(rules, g, net, a.responder, ManifestOf(a)).game ==
      CommitAssembly(rules, Gathering(rules, g, a, map[]), net).game
  {
    NothingHeld(rules, |a.parts|, 0);
  }

  lemma ManifestLeads(rules: Rules, g: Game, net: Network, a: Answer)
    requires |rules.players| > 0 && Sent(rules, a) && Waiting(g, a)
    ensures OnManifest(rules, g, net, a.responder, ManifestOf(a)).game == Standing(rules, g, net, a, map[])
  {
    PartsNonEmpty(a.parts);
    ManifestStarts(rules, g, net, a);
    Commits(rules, g, net, a, map[]);
  }

  lemma SentCopied(a: Answer)
    requires CopyLog(a.snapshot) == a.snapshot && Flatten(a.parts) == a.snapshot
    ensures PartsCopied(a)
  {
    forall k | 0 <= k < |a.parts|
      ensures CopyLog(a.parts[k]) == a.parts[k]
    {
      assert a.parts[..|a.parts|] == a.parts;
      CopiedParts(a, k, |a.parts|);
    }
  }

  /** The branch of a chunk that is new and has room. */
  lemma ChunkHasRoom(rules: Rules, g: Game, asm: Assembly, c: Chunk, size: nat)
    requires g.assembly == Some(asm) && g.gameId == c.gameId && g.requestId == Some(c.requestId)
    requires 0 <= c.part < asm.manifest.chunks && c.part !in asm.parts && |c.records| > 0
    requires RecordBytes(rules, c.records) == Some(size) && asm.totalBytes + size <= rules.maxBytes
    ensures CheckChunk(rules, g, asm.from, c)
      == Assembling(g.(assembly := Some(asm.(totalBytes := asm.totalBytes + size, parts := asm.parts[c.part := CopyLog(c.records)]))))
  {
  }

  lemma {:induction false} HeldMore(rules: Rules, a: Answer, received: map<int, seq<TurnRecord>>, k: nat)
    requires PartsCopied(a) && Genuine(a, received) && k < |a.parts| && k !in received
    ensures var held, size := Held(rules, a, received), SizeOf(rules, a.parts[k]);
      && Held(rules, a, received[k := a.parts[k]])
           == held.(totalBytes := held.totalBytes + size, parts := received[k := CopyLog(a.parts[k])])
      && held.totalBytes + size <= PartBytes(rules, a.parts)
  {
    HeldMoreBytes(rules, received, |a.parts|, k, a.parts[k], 0);
    HeldAtMost(rules, received[k := a.parts[k]], a.parts, 0);
    assert a.parts[0..] == a.parts;
  }

  lemma ChunkChecks(rules: Rules, g: Game, a: Answer, received: map<int, seq<TurnRecord>>, k: nat)
    requires PartsRight(rules, a) && PartsFit(rules, a) && PartsCopied(a) && Waiting(g, a) && Genuine(a, received)
    requires k < |a.parts| && k !in received
    ensures CheckChunk(rules, Gathering(rules, g, a, received), a.responder, ChunkOf(a, k))
      == Assembling(Gathering(rules, g, a, received[k := a.parts[k]]))
  {
    HeldMore(rules, a, received, k);
    ChunkTaken(rules, g, a, received, k, SizeOf(rules, a.parts[k]));
  }

  lemma ChunkTaken(rules: Rules, g: Game, a: Answer, received: map<int, seq<TurnRecord>>, k: nat, size: nat)
    requires Waiting(g, a) && k < |a.parts| && k !in received && |a.parts[k]| > 0
    requires RecordBytes(rules, a.parts[k]) == Some(size)
    requires Held(rules, a, received).totalBytes + size <= rules.maxBytes
    requires var held := Held(rules, a, received);
      Held(rules, a, received[k := a.parts[k]])
        == held.(totalBytes := held.totalBytes + size, parts := received[k := CopyLog(a.parts[k])])
    ensures CheckChunk(rules, Gathering(rules, g, a, received), a.responder, ChunkOf(a, k))
      == Assembling(Gathering(rules, g, a, received[k := a.parts[k]]))
  {
    ChunkHasRoom(rules, Gathering(rules, g, a, received), Held(rules, a, received), ChunkOf(a, k), size);
  }

  lemma ChunkAgain(rules: Rules, g: Game, a: Answer, received: map<int, seq<TurnRecord>>, k: nat)
    requires Waiting(g, a) && Genuine(a, received) && k < |a.parts| && |a.parts[k]| > 0 && k in received
    ensures CheckChunk(rules, Gathering(rules, g, a, received), a.responder, ChunkOf(a, k))
      == Done(Ended(Gathering(rules, g, a, received), false))
  {
  }

  lemma OnChunkCommits(rules: Rules, g: Game, net: Network, from: Text, c: Chunk, grown: Game, r: Game)
    requires |rules.players| > 0 && CheckChunk(rules, g, from, c) == Assembling(grown)
    requires CommitAssembly(rules, grown, net).game == r
    ensures OnChunk(rules, g, net, from, c).game == r
  {
  }

  lemma NewChunkArrives(rules: Rules, g: Game, net: Network, a: Answer, received: map<int, seq<TurnRecord>>, k: nat)
    requires |rules.players| > 0 && Sent(rules, a) && PartsFit(rules, a) && PartsCopied(a) && Waiting(g, a) && Genuine(a, received)
    requires k < |a.parts| && k !in received
    ensures OnChunk(rules, Gathering(rules, g, a, received), net, a.responder, ChunkOf(a, k)).game
      == Standing(rules, g, net, a, received[k := a.parts[k]])
  {
    var more := received[k := a.parts[k]];
    GenuineMore(a, received, k);
    ChunkChecks(rules, g, a, received, k);
    Commits(rules, g, net, a, more);
    OnChunkCommits(rules, Gathering(rules, g, a, received), net, a.responder, ChunkOf(a, k), Gathering(rules, g, a, more),
      Standing(rules, g, net, a, more));
  }

  lemma GenuineMore(a: Answer, received: map<int, seq<TurnRecord>>, k: nat)
    requires Genuine(a, received) && k < |a.parts|
    ensures Genuine(a, received[k := a.parts[k]])
  {
  }

  lemma OldChunkArrives(rules: Rules, g: Game, net: Network, a: Answer, received: map<int, seq<TurnRecord>>, k: nat)
    requires |rules.players| > 0 && Waiting(g, a) && Genuine(a, received) && k < |a.parts| && |a.parts[k]| > 0
    requires k in received && |received| < |a.parts|
    ensures OnChunk(rules, Gathering(rules, g, a, received), net, a.responder, ChunkOf(a, k)).game
      == Standing(rules, g, net, a, received[k := a.parts[k]])
  {
    ChunkAgain(rules, g, a, received, k);
    assert received[k := a.parts[k]] == received;
  }

  /** A part is added, or was there already; the last one missing completes the log. */
  lemma ChunkArrives(rules: Rules, g: Game, net: Network, a: Answer, received: map<int, seq<TurnRecord>>, k: nat)
    requires |rules.players| > 0 && Sent(rules, a) && PartsFit(rules, a) && PartsCopied(a) && Waiting(g, a) && Genuine(a, received)
    requires k < |a.parts| && |received| < |a.parts|
    ensures OnChunk(rules, Gathering(rules, g, a, received), net, a.responder, ChunkOf(a, k)).game
      == Standing(rules, g, net, a, received[k := a.parts[k]])
  {
    if k in received {
      OldChunkArrives(rules, g, net, a, received, k);
    } else {
      NewChunkArrives(rules, g, net, a, received, k);
    }
  }

  // ---- After the log was replaced ------------------------------------------------------------------------

  lemma AcceptAssemblesNothing(rules: Rules, g: Game, net: Network, from: Text, item: LiveTurn)
    requires |rules.players| > 0 && g.assembly.None?
    ensures Accept(rules, g, net, from, item).game.assembly.None?
  {
  }

  lemma {:induction false} AcceptAllAssemblesNothing(rules: Rules, g: Game, net: Network, waiting: seq<Buffered>)
    requires |rules.players| > 0 && g.assembly.None?
    ensures AcceptAll(rules, g, net, waiting).game.assembly.None?
    decreases |waiting|
  {
    if |waiting| > 0 {
      AcceptAssemblesNothing(rules, g, net, waiting[0].from, waiting[0].payload);
      AcceptAllAssemblesNothing(rules, Accept(rules, g, net, waiting[0].from, waiting[0].payload).game, net, waiting[1..]);
    }
  }

  lemma RestoredAssemblesNothing(rules: Rules, g: Game, net: Network, a: Answer)
    requires |rules.players| > 0
    ensures Restored(rules, g, net, a).assembly.None?
  {
    AcceptAllAssemblesNothing(rules, Replaced(g, a.snapshot, a.state), net, g.buffered);
  }

  /** With nothing waiting, the game is the old one with the log and its state put in. */
  lemma {:induction false} RestoredQuietly(rules: Rules, g: Game, net: Network, a: Answer)
    requires |rules.players| > 0 && CopyLog(a.snapshot) == a.snapshot && g.buffered == [] && g.pendingFinish.None?
    ensures Restored(rules, g, net, a) == g.(records := a.snapshot, state := a.state, requestId := None, assembly := None)
  {
  }

  // ---- The whole replay -------------------------------------------------------------------------------------

  datatype Delivery = Delivery(net: Network, part: nat)

  predicate Deliverable(a: Answer, deliveries: seq<Delivery>) {
    forall i :: 0 <= i < |deliveries| ==> deliveries[i].part < |a.parts|
  }

  function PartsOf(deliveries: seq<Delivery>): set<int> {
    if |deliveries| == 0 then {} else {deliveries[0].part} + PartsOf(deliveries[1..])
  }

  /** What one delivery does to the game. */
  function Deliver(rules: Rules, a: Answer): (Game, Delivery) -> Game
    requires |rules.players| > 0
  {
    (g: Game, d: Delivery) => if d.part < |a.parts| then OnChunk(rules, g, d.net, a.responder, ChunkOf(a, d.part)).game else g
  }

  function DeliverAll(deliver: (Game, Delivery) -> Game, g: Game, deliveries: seq<Delivery>): Game
    decreases |deliveries|
  {
    if |deliveries| == 0 then g else DeliverAll(deliver, deliver(g, deliveries[0]), deliveries[1..])
  }

  /** What a replay must leave behind: the snapshot continued by what was waiting, or, with
      nothing waiting, exactly the snapshot and its state. */
  predicate ReplayedInto(rules: Rules, g: Game, a: Answer, r: Game)
    requires |rules.players| > 0
  {
    && Sound(rules, r) && Extends(a.snapshot, r.records)
    && (g.buffered == [] && g.pendingFinish.None? ==>
          r == g.(records := a.snapshot, state := a.state, requestId := None, assembly := None))
  }

  lemma RestoredIsReplayed(rules: Rules, g: Game, net: Network, a: Answer, received: map<int, seq<TurnRecord>>)
    requires Playable(rules) && Sound(rules, g) && LogRight(rules, a) && SameHashes(g.records, a.snapshot)
    ensures var r := Restored(rules, Gathering(rules, g, a, received), net, a);
      ReplayedInto(rules, g, a, r) && r.assembly.None?
  {
    var gathering := Gathering(rules, g, a, received);
    ReplaceKeeps(rules, gathering, net, a.snapshot, a.state);
    RestoredAssemblesNothing(rules, gathering, net, a);
    if g.buffered == [] && g.pendingFinish.None? {
      RestoredQuietly(rules, gathering, net, a);
    }
  }

  /** What the delivery of these parts, in all, must lead to. */
  predicate DeliversTo(rules: Rules, g: Game, a: Answer, parts: set<int>, r: Game)
    requires |rules.players| > 0
  {
    if Indices(0, |a.parts|) <= parts then ReplayedInto(rules, g, a, r) else r.records == g.records && r.state == g.state
  }

  lemma {:induction false} MoreReceived(a: Answer, received: map<int, seq<TurnRecord>>, deliveries: seq<Delivery>)
    requires Genuine(a, received) && |deliveries| > 0 && deliveries[0].part < |a.parts|
    ensures var more := received[deliveries[0].part := a.parts[deliveries[0].part]];
      && Genuine(a, more) && |more| <= |a.parts|
      && received.Keys + PartsOf(deliveries) == more.Keys + PartsOf(deliveries[1..])
  {
    Complete(a, received[deliveries[0].part := a.parts[deliveries[0].part]]);
  }

  /** Deliveries gather the parts, and the last one missing ends the gathering for good. */
  ghost predicate Gathers(
    a: Answer, deliver: (Game, Delivery) -> Game, gathering: map<int, seq<TurnRecord>> -> Game, replayed: Game -> bool)
  {
    && (forall received: map<int, seq<TurnRecord>>, d: Delivery {:trigger deliver(gathering(received), d)} ::
          Genuine(a, received) && |received| < |a.parts| && d.part < |a.parts| ==>
            var more := received[d.part := a.parts[d.part]];
            if |more| == |a.parts| then replayed(deliver(gathering(received), d))
            else deliver(gathering(received), d) == gathering(more))
    && (forall g: Game, d: Delivery {:trigger deliver(g, d), replayed(g)} :: replayed(g) ==> deliver(g, d) == g)
  }

  lemma {:induction false} NothingChanges(
    a: Answer, deliver: (Game, Delivery) -> Game, gathering: map<int, seq<TurnRecord>> -> Game, replayed: Game -> bool,
    g: Game, deliveries: seq<Delivery>)
    requires Gathers(a, deliver, gathering, replayed) && replayed(g)
    ensures DeliverAll(deliver, g, deliveries) == g
    decreases |deliveries|
  {
    if |deliveries| > 0 {
      NothingChanges(a, deliver, gathering, replayed, g, deliveries[1..]);
    }
  }

  /** Whatever is delivered in whatever order: once every part came, the replay is complete, and
      until then the game gathers. */
  lemma {:induction false} GathersAll(
    a: Answer, deliver: (Game, Delivery) -> Game, gathering: map<int, seq<TurnRecord>> -> Game, replayed: Game -> bool,
    received: map<int, seq<TurnRecord>>, deliveries: seq<Delivery>)
    returns (final: map<int, seq<TurnRecord>>)
    requires Gathers(a, deliver, gathering, replayed) && Genuine(a, received) && |received| < |a.parts|
    requires Deliverable(a, deliveries)
    ensures var r := DeliverAll(deliver, gathering(received), deliveries);
      if Indices(0, |a.parts|) <= received.Keys + PartsOf(deliveries) then replayed(r) else r == gathering(final)
    decreases |deliveries|
  {
    final := received;
    if |deliveries| == 0 {
      Incomplete(a, received);
      assert received.Keys + PartsOf(deliveries) == received.Keys;
    } else {
      var d := deliveries[0];
      var more := received[d.part := a.parts[d.part]];
      MoreReceived(a, received, deliveries);
      var next := deliver(gathering(received), d);
      if |more| == |a.parts| {
        Complete(a, more);
        assert Indices(0, |a.parts|) <= more.Keys + PartsOf(deliveries[1..]);
        NothingChanges(a, deliver, gathering, replayed, next, deliveries[1..]);
      } else {
        final := GathersAll(a, deliver, gathering, replayed, more, deliveries[1..]);
      }
    }
  }

  lemma Incomplete(a: Answer, received: map<int, seq<TurnRecord>>)
    requires Genuine(a, received) && |received| < |a.parts|
    ensures !(Indices(0, |a.parts|) <= received.Keys)
  {
    assert |received| == |received.Keys|;
    if Indices(0, |a.parts|) <= received.Keys {
      SubsetCount(Indices(0, |a.parts|), received.Keys);
      assert false;
    }
  }

  /** The game of a requester, as a function of the parts it has. */
  function GatheringOf(rules: Rules, g: Game, a: Answer): map<int, seq<TurnRecord>> -> Game {
    (received: map<int, seq<TurnRecord>>) => Gathering(rules, g, a, received)
  }

  /** A restored game satisfies `replayed`, and awaits no parts. */
  ghost predicate RestoresTo(rules: Rules, g: Game, a: Answer, replayed: Game -> bool)
    requires |rules.players| > 0
  {
    && (forall net: Network, received: map<int, seq<TurnRecord>> {:trigger Restored(rules, Gathering(rules, g, a, received), net, a)} ::
          replayed(Restored(rules, Gathering(rules, g, a, received), net, a)))
    && forall r: Game {:trigger replayed(r)} :: replayed(r) ==> r.assembly.None?
  }

  lemma {:induction false} DeliveryGathers(
    rules: Rules, g: Game, a: Answer, replayed: Game -> bool, received: map<int, seq<TurnRecord>>, net: Network, k: nat)
    requires |rules.players| > 0 && Sent(rules, a) && PartsFit(rules, a) && PartsCopied(a) && Waiting(g, a) && RestoresTo(rules, g, a, replayed)
    requires Genuine(a, received) && |received| < |a.parts| && k < |a.parts|
    ensures var more, next := received[k := a.parts[k]], OnChunk(rules, Gathering(rules, g, a, received), net, a.responder, ChunkOf(a, k)).game;
      if |more| == |a.parts| then replayed(next) else next == Gathering(rules, g, a, more)
  {
    ChunkArrives(rules, g, net, a, received, k);
  }

  lemma {:induction false} Deaf(rules: Rules, a: Answer, r: Game, d: Delivery)
    requires |rules.players| > 0 && r.assembly.None?
    ensures Deliver(rules, a)(r, d) == r
  {
  }

  /** One delivery gathers, or ends the gathering. */
  ghost predicate GathersOne(
    a: Answer, deliver: (Game, Delivery) -> Game, gathering: map<int, seq<TurnRecord>> -> Game, replayed: Game -> bool,
    received: map<int, seq<TurnRecord>>, d: Delivery)
    requires d.part < |a.parts|
  {
    var more := received[d.part := a.parts[d.part]];
    if |more| == |a.parts| then replayed(deliver(gathering(received), d))
    else deliver(gathering(received), d) == gathering(more)
  }

  lemma {:induction false} ReplayGathersOne(
    rules: Rules, g: Game, a: Answer, replayed: Game -> bool, received: map<int, seq<TurnRecord>>, d: Delivery)
    requires |rules.players| > 0 && Sent(rules, a) && PartsFit(rules, a) && PartsCopied(a) && Waiting(g, a) && RestoresTo(rules, g, a, replayed)
    requires Genuine(a, received) && |received| < |a.parts| && d.part < |a.parts|
    ensures GathersOne(a, Deliver(rules, a), GatheringOf(rules, g, a), replayed, received, d)
  {
    DeliveryGathers(rules, g, a, replayed, received, d.net, d.part);
  }

  lemma {:induction false} GathersFromOnes(
    a: Answer, deliver: (Game, Delivery) -> Game, gathering: map<int, seq<TurnRecord>> -> Game, replayed: Game -> bool)
    requires forall received: map<int, seq<TurnRecord>>, d: Delivery ::
      Genuine(a, received) && |received| < |a.parts| && d.part < |a.parts| ==>
        GathersOne(a, deliver, gathering, replayed, received, d)
    requires forall r: Game, d: Delivery {:trigger deliver(r, d), replayed(r)} :: replayed(r) ==> deliver(r, d) == r
    ensures Gathers(a, deliver, gathering, replayed)
  {
    forall received: map<int, seq<TurnRecord>>, d: Delivery | Genuine(a, received) && |received| < |a.parts| && d.part < |a.parts|
      ensures var more := received[d.part := a.parts[d.part]];
        if |more| == |a.parts| then replayed(deliver(gathering(received), d))
        else deliver(gathering(received), d) == gathering(more)
    {
      assert GathersOne(a, deliver, gathering, replayed, received, d);
    }
  }

  lemma {:induction false} ReplayGathers(rules: Rules, g: Game, a: Answer, replayed: Game -> bool)
    requires |rules.players| > 0 && Sent(rules, a) && PartsFit(rules, a) && PartsCopied(a) && Waiting(g, a) && RestoresTo(rules, g, a, replayed)
    ensures Gathers(a, Deliver(rules, a), GatheringOf(rules, g, a), replayed)
  {
    forall received: map<int, seq<TurnRecord>>, d: Delivery | Genuine(a, received) && |received| < |a.parts| && d.part < |a.parts|
      ensures GathersOne(a, Deliver(rules, a), GatheringOf(rules, g, a), replayed, received, d)
    {
      ReplayGathersOne(rules, g, a, replayed, received, d);
    }
    forall r: Game, d: Delivery | replayed(r)
      ensures Deliver(rules, a)(r, d) == r
    {
      Deaf(rules, a, r, d);
    }
    GathersFromOnes(a, Deliver(rules, a), GatheringOf(rules, g, a), replayed);
  }

  /** Deliveries to a game that begins to gather, for any way of delivering that gathers. */
  lemma {:induction false} DeliveredFrom(
    a: Answer, deliver: (Game, Delivery) -> Game, gathering: map<int, seq<TurnRecord>> -> Game, replayed: Game -> bool,
    deliveries: seq<Delivery>, started: Game)
    returns (final: map<int, seq<TurnRecord>>)
    requires Gathers(a, deliver, gathering, replayed) && Deliverable(a, deliveries)
    requires if |a.parts| == 0 then replayed(started) else started == gathering(map[])
    ensures var r := DeliverAll(deliver, started, deliveries);
      if Indices(0, |a.parts|) <= PartsOf(deliveries) then replayed(r) else r == gathering(final)
  {
    var none: map<int, seq<TurnRecord>> := map[];
    final := none;
    assert none.Keys + PartsOf(deliveries) == PartsOf(deliveries);
    if |a.parts| == 0 {
      NothingChanges(a, deliver, gathering, replayed, started, deliveries);
    } else {
      final := GathersAll(a, deliver, gathering, replayed, none, deliveries);
    }
  }

  /** The replay, for whatever is known of restored games. */
  lemma {:induction false} ReplayFrom(
    rules: Rules, g: Game, net: Network, a: Answer, replayed: Game -> bool, deliveries: seq<Delivery>, started: Game)
    requires |rules.players| > 0 && Sent(rules, a) && PartsFit(rules, a) && PartsCopied(a) && Waiting(g, a) && RestoresTo(rules, g, a, replayed)
    requires Deliverable(a, deliveries) && started == Standing(rules, g, net, a, map[])
    ensures var r := DeliverAll(Deliver(rules, a), started, deliveries);
      if Indices(0, |a.parts|) <= PartsOf(deliveries) then replayed(r) else r.records == g.records && r.state == g.state
  {
    ReplayGathers(rules, g, a, replayed);
    var final := DeliveredFrom(a, Deliver(rules, a), GatheringOf(rules, g, a), replayed, deliveries, started);
  }

  /** The replay is complete, and no parts are awaited any more. */
  ghost function Replayed(rules: Rules, g: Game, a: Answer): Game -> bool
    requires |rules.players| > 0
  {
    (r: Game) => ReplayedInto(rules, g, a, r) && r.assembly.None?
  }

  lemma {:induction false} AllRestored(rules: Rules, g: Game, a: Answer)
    requires Playable(rules) && Sound(rules, g) && LogRight(rules, a) && SameHashes(g.records, a.snapshot)
    ensures RestoresTo(rules, g, a, Replayed(rules, g, a))
  {
    forall net: Network, received: map<int, seq<TurnRecord>>
      ensures Replayed(rules, g, a)(Restored(rules, Gathering(rules, g, a, received), net, a))
    {
      RestoredIsReplayed(rules, g, net, a, received);
    }
  }

  /** Once every part has come at least once, in any order and however often, the requester's
      log is the snapshot; until then it is what it was. */
  lemma {:induction false} ReplayIsLossless(rules: Rules, g: Game, net: Network, a: Answer, deliveries: seq<Delivery>)
    requires Playable(rules) && Sound(rules, g) && Sent(rules, a) && PartsFit(rules, a) && Waiting(g, a) && Deliverable(a, deliveries)
    ensures var started := OnManifest(rules, g, net, a.responder, ManifestOf(a)).game;
      DeliversTo(rules, g, a, PartsOf(deliveries), DeliverAll(Deliver(rules, a), started, deliveries))
  {
    ManifestLeads(rules, g, net, a);
    SentCopied(a);
    AllRestored(rules, g, a);
    ReplayFrom(rules, g, net, a, Replayed(rules, g, a), deliveries, Standing(rules, g, net, a, map[]));
  }

  /** What a sound responder sends is a valid log with its own state, already copied. */
  lemma SnapshotIsValid(rules: Rules, g: Game)
    requires Playable(rules) && Sound(rules, g)
    ensures Validated(rules, CopyLog(g.records)) == Some(g.state)
    ensures CopyLog(CopyLog(g.records)) == CopyLog(g.records)
  {
    CopyExtends(g.records);
    SameLogSound(rules, g.records, CopyLog(g.records));
    forall i | 0 <= i < |g.records|
      ensures CopyRecord(CopyLog(g.records)[i]) == CopyLog(g.records)[i]
    {
      NormalizeIsStable(g.records[i].move);
    }
  }
}
