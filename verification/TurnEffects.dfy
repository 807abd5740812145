/** What a finish, a replay, a manifest and a load do to a turn game, told by their effects. */
module TurnEffects {
  import opened Text
  import opened CanonicalJson
  import opened Pieces
  import opened TurnLog
  import opened TurnSteps
  import opened TurnRuns
  import opened TurnSizes
  import opened TurnCaps

  /** It takes no move any more, and awaits nothing. */
  predicate Stopped(g: Game) {
    g.frozen && g.requestId.None? && g.assembly.None? && g.buffered == []
  }

  // ---- Finishing -------------------------------------------------------------------------------

  /** The log this count and hash were taken from, if it is sound. */
  predicate Names(records: seq<TurnRecord>, count: int, hash: Text) {
    count == |records| && hash == LastHash(records)
  }

  /** From the host, or from whoever was asked for the log and names that very request. */
  predicate Heeded(g: Game, host: Option<Text>, from: Text, m: FinishMessage) {
    && m.gameId == g.gameId && !g.frozen
    && (Some(from) == host || (Some(from) == g.requestedFrom && m.requestId == g.replayRequestId))
  }

  predicate WellFormed(m: FinishMessage) {
    m.count >= 0 && IsHash(m.finalHash)
  }

  /** A finish waits for the log it names: one that is awaited already, or that has to be asked for. */
  predicate FinishWaits(g: Game, m: FinishMessage) {
    g.requestId.Some? || m.count > |g.records|
  }

  /** What a finish does: it finishes the game exactly if it is heeded, need not wait and names the
      log; it freezes it exactly if it is heeded and malformed, or need not wait and names another. */
  lemma FinishIff(g: Game, net: Network, host: Option<Text>, from: Text, m: FinishMessage)
    ensures var e, heeded := OnFinish(g, net, host, from, m), Heeded(g, host, from, m);
      var now, later := heeded && WellFormed(m) && !FinishWaits(g, m), heeded && WellFormed(m) && FinishWaits(g, m);
      && Untouched(g, e.game)
      && (e.game.finished <==> g.finished || (now && Names(g.records, m.count, m.finalHash)))
      && (e.game.frozen <==> g.frozen || (heeded && !WellFormed(m)) || (now && !Names(g.records, m.count, m.finalHash)))
      && (later && !e.threw ==> e.game.pendingFinish == Some(Finish(m.count, m.finalHash)))
      && (later && g.requestId.None? && net.target.Some? ==>
            e.game.requestId == Some(net.freshId) && e.game.requestedFrom == net.target && e.threw == !net.sent)
      && (!heeded ==> e == Ended(g, false))
  {
  }

  /** A finish that waited is settled one way or the other once the log is there. */
  lemma SettledIff(g: Game)
    requires !g.frozen
    ensures var r := SettleFinish(g);
      match g.pendingFinish
      case None => r == g
      case Some(finish) =>
        && r.pendingFinish.None? && Untouched(g, r)
        && (if Names(g.records, finish.count, finish.finalHash) then r.finished && !r.frozen else r.frozen && r.finished == g.finished)
  {
  }

  // ---- What waits for a log -------------------------------------------------------------------------

  /** The moves that wait are, one after the other, allowed as the next ones. */
  predicate Follow(rules: Rules, g: Game, waiting: seq<Buffered>)
    requires |rules.players| > 0
    decreases |waiting|
  {
    |waiting| == 0
    || (waiting[0].payload.gameId == g.gameId && Allowed(rules, g, waiting[0].from, waiting[0].payload.record)
        && Follow(rules, Advanced(rules, g, waiting[0].payload.record), waiting[1..]))
  }

  /** The game with one move made. */
  function Advanced(rules: Rules, g: Game, r: TurnRecord): Game
    requires Applied(rules, g.state, r.move, r.player).Some?
  {
    Landed(g, r, Applied(rules, g.state, r.move, r.player).value)
  }

  function Moves(waiting: seq<Buffered>): seq<TurnRecord> {
    if |waiting| == 0 then [] else [CopyRecord(waiting[0].payload.record)] + Moves(waiting[1..])
  }

  lemma {:induction false} AcceptsAll(rules: Rules, g: Game, net: Network, waiting: seq<Buffered>)
    requires |rules.players| > 0 && Follow(rules, g, waiting) && !g.frozen && !g.finished && g.requestId.None?
    ensures var e := AcceptAll(rules, g, net, waiting);
      !e.threw && e.game == g.(records := g.records + Moves(waiting), state := e.game.state)
    decreases |waiting|
  {
    if |waiting| > 0 {
      var r := waiting[0].payload.record;
      var next := Advanced(rules, g, r);
      AcceptIffAllowed(rules, g, net, waiting[0].from, waiting[0].payload);
      AcceptsAll(rules, next, net, waiting[1..]);
      assert g.records + [CopyRecord(r)] + Moves(waiting[1..]) == g.records + Moves(waiting);
    } else {
      assert g.records + Moves(waiting) == g.records;
    }
  }

  /** Moves that came while a log was awaited are not lost: if they go on from the log that comes,
      they follow it, in order. And a finish that waited finishes the game exactly if it names the
      log that they lead to. */
  lemma {:induction false} WaitingMovesLand(rules: Rules, g: Game, net: Network, log: seq<TurnRecord>, state: Value)
    requires |rules.players| > 0 && !g.frozen && !g.finished && Follow(rules, Replaced(g, log, state), g.buffered)
    ensures var e := Replace(rules, g, net, log, state);
      && !e.threw && e.game.records == CopyLog(log) + Moves(g.buffered) && e.game.buffered == [] && e.game.requestId.None?
      && (g.pendingFinish.None? ==> !e.game.frozen && !e.game.finished)
      && (g.pendingFinish.Some? ==>
            var named := Names(e.game.records, g.pendingFinish.value.count, g.pendingFinish.value.finalHash);
            e.game.pendingFinish.None? && e.game.finished == named && e.game.frozen == !named)
  {
    hide AcceptAll, SettleFinish;
    var replaced := Replaced(g, log, state);
    AcceptsAll(rules, replaced, net, g.buffered);
    SettledIff(AcceptAll(rules, replaced, net, g.buffered).game);
    FailedIsEmpty(AcceptAll(rules, replaced, net, g.buffered).game);
  }

  lemma FailedIsEmpty(g: Game)
    requires g.buffered == [] && g.requestId.None?
    ensures SettleFinish(g).buffered == [] && SettleFinish(g).requestId.None?
  {
  }

  // ---- Beginning a replay ----------------------------------------------------------------------------

  /** It answers the request that is awaited. */
  predicate Answering(g: Game, m: Manifest) {
    Some(m.requestId) == g.requestId && m.gameId == g.gameId
  }

  /** From whom the log was asked of, with counts that a log within the cap can have. */
  predicate Trusted(rules: Rules, g: Game, from: Text, m: Manifest) {
    && Some(from) == g.requestedFrom && 0 <= m.chunks <= m.count <= rules.maxBytes / 80 && IsHash(m.finalHash)
  }

  /** A manifest that answers the request freezes the game exactly if it is not to be trusted, and
      otherwise begins the replay anew, or is too late; any other changes nothing. */
  lemma {:induction false} ManifestIff(rules: Rules, g: Game, net: Network, from: Text, m: Manifest)
    requires |rules.players| > 0
    ensures var e, begun := OnManifest(rules, g, net, from, m), g.(assembly := Some(Assembly(m, from, map[], 0)));
      if !Answering(g, m) then e == Ended(g, false)
      else if !Trusted(rules, g, from, m) then e == Ended(Fail(g), false)
      else if g.assembly.Some? && g.assembly.value.from != from then e == Ended(g, false)
      else if m.chunks == 0 then e == CommitAssembly(rules, begun, net)
      else e == Ended(begun, false)
  {
  }

  // ---- Gathering a replay ----------------------------------------------------------------------------

  /** It belongs to the replay that is gathered. */
  predicate Heard(g: Game, from: Text, c: Chunk) {
    g.assembly.Some? && g.assembly.value.from == from && c.gameId == g.gameId && Some(c.requestId) == g.requestId
  }

  /** No part of the announced log. */
  predicate Misplaced(a: Assembly, c: Chunk) {
    c.part < 0 || c.part >= a.manifest.chunks || c.records == []
  }

  /** Another part is held in its place. */
  predicate Contradicts(a: Assembly, c: Chunk) {
    c.part in a.parts && a.parts[c.part] != c.records
  }

  /** There is no room for it. */
  predicate Overflows(rules: Rules, a: Assembly, c: Chunk) {
    c.part !in a.parts && RecordBytes(rules, c.records).Some? && a.totalBytes + RecordBytes(rules, c.records).value > rules.maxBytes
  }

  /** A part freezes the game before anything is assembled. */
  predicate Spoils(rules: Rules, g: Game, from: Text, c: Chunk) {
    Heard(g, from, c)
    && (Misplaced(g.assembly.value, c) || Contradicts(g.assembly.value, c) || Overflows(rules, g.assembly.value, c))
  }

  /** A part that is new and has room. */
  predicate Adds(rules: Rules, g: Game, from: Text, c: Chunk) {
    && Heard(g, from, c) && !Misplaced(g.assembly.value, c) && c.part !in g.assembly.value.parts
    && RecordBytes(rules, c.records).Some? && !Overflows(rules, g.assembly.value, c)
  }

  /** The first `i` parts, one after the other. */
  function Collected(parts: map<int, seq<TurnRecord>>, i: nat): seq<TurnRecord>
    requires forall k :: 0 <= k < i ==> k in parts
  {
    if i == 0 then [] else Collected(parts, i - 1) + parts[i - 1]
  }

  /** Every part is there, and no other. */
  predicate AllThere(a: Assembly) {
    |a.parts| == a.manifest.chunks && forall k :: 0 <= k < a.manifest.chunks ==> k in a.parts
  }

  /** The log is the one announced, it continues the records, and it is valid and can be copied. */
  predicate Replaces(rules: Rules, g: Game, m: Manifest, log: seq<TurnRecord>)
    requires |rules.players| > 0
  {
    && Names(log, m.count, m.finalHash) && Validated(rules, log).Some? && PrintableLog(log)
    && |g.records| <= |log| && forall i :: 0 <= i < |g.records| ==> g.records[i].hash == log[i].hash
  }

  lemma {:induction false} CollectsAll(a: Assembly, i: nat)
    requires AllThere(a) && i <= a.manifest.chunks
    ensures Assembled(a.parts, i, a.manifest.chunks, Collected(a.parts, i)) == Some(Collected(a.parts, a.manifest.chunks))
    decreases a.manifest.chunks - i
  {
    if i < a.manifest.chunks {
      CollectsAll(a, i + 1);
    }
  }

  lemma {:induction false} CollectsNothing(a: Assembly, i: nat, k: nat, log: seq<TurnRecord>)
    requires i <= k < a.manifest.chunks && k !in a.parts
    ensures Assembled(a.parts, i, a.manifest.chunks, log) == None
    decreases k - i
  {
    if i < k && i in a.parts {
      CollectsNothing(a, i + 1, k, log + a.parts[i]);
    }
  }

  /** A replay is decided exactly when every part is there: the log they make replaces the records, or
      the game freezes. Until then nothing happens. */
  lemma {:induction false} CommitIff(rules: Rules, g: Game, net: Network)
    requires |rules.players| > 0 && g.assembly.Some?
    ensures var a, e := g.assembly.value, CommitAssembly(rules, g, net);
      if AllThere(a) then
        var log := Collected(a.parts, a.manifest.chunks);
        if Replaces(rules, g, a.manifest, log) then e == Replace(rules, g, net, log, Validated(rules, log).value)
        else e == Ended(Fail(g), false)
      else e == Ended(g, false)
  {
    hide Replace, Validated;
    var a := g.assembly.value;
    if AllThere(a) {
      CollectsAll(a, 0);
    } else if |a.parts| == a.manifest.chunks {
      var k: nat :| k < a.manifest.chunks && k !in a.parts;
      CollectsNothing(a, 0, k, []);
    }
  }

  // ---- Loading ---------------------------------------------------------------------------------------

  /** The first `i` parts, all there, one after the other. */
  function Upto(parts: seq<Option<seq<TurnRecord>>>, i: nat): seq<TurnRecord>
    requires i <= |parts| && forall k :: 0 <= k < i ==> parts[k].Some?
  {
    if i == 0 then [] else Upto(parts, i - 1) + parts[i - 1].value
  }

  /** The first `i` parts are there and not empty, and the log stays within its cap as they are read. */
  predicate Whole(rules: Rules, parts: seq<Option<seq<TurnRecord>>>, i: nat) {
    && i <= |parts| && (forall k :: 0 <= k < i ==> parts[k].Some? && parts[k].value != [])
    && forall k :: 0 < k <= i ==> LogFits(rules, Upto(parts, k), rules.maxBytes)
  }

  /** Reading stops at part `i`. */
  predicate Stops(rules: Rules, saved: Saved, i: nat) {
    i < saved.chunks && Whole(rules, saved.parts, i) && !Whole(rules, saved.parts, i + 1)
  }

  lemma {:induction false} GathersWhole(rules: Rules, saved: Saved, i: nat)
    requires i <= saved.chunks && Whole(rules, saved.parts, saved.chunks)
    ensures Gather(rules, saved.parts, saved.chunks, i, Upto(saved.parts, i)) == Gathered(Upto(saved.parts, saved.chunks))
    decreases saved.chunks - i
  {
    if i < saved.chunks {
      GathersWhole(rules, saved, i + 1);
    }
  }

  lemma {:induction false} GatherStops(rules: Rules, saved: Saved, i: nat, at: nat)
    requires Stops(rules, saved, at) && i <= at
    ensures Gather(rules, saved.parts, saved.chunks, i, Upto(saved.parts, i))
      == if at >= |saved.parts| || saved.parts[at].None? then Unavailable
         else if saved.parts[at].value == [] then Damaged else TooLarge
    decreases at - i
  {
    if i < at {
      GatherStops(rules, saved, i + 1, at);
    }
  }

  lemma {:induction false} StopsSomewhere(rules: Rules, saved: Saved, i: nat) returns (at: nat)
    requires i <= saved.chunks && Whole(rules, saved.parts, i) && !Whole(rules, saved.parts, saved.chunks)
    ensures Stops(rules, saved, at)
    decreases saved.chunks - i
  {
    if Whole(rules, saved.parts, i + 1) {
      at := StopsSomewhere(rules, saved, i + 1);
    } else {
      at := i;
    }
  }

  /** What was saved fits together. */
  predicate Consistent(rules: Rules, saved: Saved)
    requires |rules.players| > 0 && saved.chunks >= 0 && Whole(rules, saved.parts, saved.chunks)
  {
    var log := Upto(saved.parts, saved.chunks);
    Names(log, saved.count, saved.finalHash) && Validated(rules, log).Some?
  }

  /** A load puts in exactly the log whose parts are all there, within the caps, and fit together. One
      that is refused changes nothing but that it freezes the game, unless a part is missing or the
      log too large. */
  lemma {:induction false} LoadIff(rules: Rules, g: Game, saved: Saved)
    requires |rules.players| > 0
    ensures var e := Load(rules, g, saved);
      if Miscounted(rules, saved) then e == Ended(Fail(g), true)
      else if Whole(rules, saved.parts, saved.chunks) then
        var log := Upto(saved.parts, saved.chunks);
        if Consistent(rules, saved) then
          e == Ended(g.(records := log, state := Validated(rules, log).value, gameId := Some(saved.gameId)), false)
        else e == Ended(Fail(g), true)
      else
        e.threw && forall i: nat :: Stops(rules, saved, i) ==>
          e == Ended(if i < |saved.parts| && saved.parts[i] == Some([]) then Fail(g) else g, true)
  {
    hide Validated, LogFits, Gather;
    if !Miscounted(rules, saved) {
      if Whole(rules, saved.parts, saved.chunks) {
        GathersWhole(rules, saved, 0);
      } else {
        var at := StopsSomewhere(rules, saved, 0);
        forall i: nat | Stops(rules, saved, i)
          ensures Load(rules, g, saved) == Ended(if i < |saved.parts| && saved.parts[i] == Some([]) then Fail(g) else g, true)
        {
          GatherStops(rules, saved, 0, i);
        }
      }
    }
  }

  /** What a game saves of itself: its log in parts, and what names it. */
  predicate Saves(g: Game, saved: Saved) {
    && g.gameId == Some(saved.gameId) && Names(g.records, saved.count, saved.finalHash) && saved.chunks == |saved.parts|
    && (forall i :: 0 <= i < |saved.parts| ==> saved.parts[i].Some? && |saved.parts[i].value| > 0)
    && Upto(saved.parts, |saved.parts|) == g.records
  }

  lemma {:induction false} UptoGrows(parts: seq<Option<seq<TurnRecord>>>, i: nat, k: nat)
    requires i <= k <= |parts| && forall j :: 0 <= j < |parts| ==> parts[j].Some? && |parts[j].value| > 0
    ensures |Upto(parts, i)| + (k - i) <= |Upto(parts, k)| && Upto(parts, k)[..|Upto(parts, i)|] == Upto(parts, i)
    decreases k
  {
    if i < k {
      UptoGrows(parts, i, k - 1);
    }
  }

  /** A beginning of a log is not larger. */
  lemma {:induction false} BeginningFits(rules: Rules, log: seq<TurnRecord>, n: nat)
    requires Playable(rules) && n <= |log| && LogFits(rules, log, rules.maxBytes)
    ensures LogFits(rules, log[..n], rules.maxBytes)
  {
    hide RecordBytes, PrintableRecord, Weight;
    LogBytes(rules, log);
    LogBytes(rules, log[..n]);
    WeightAppend(log[..n], log[n..]);
    assert log[..n] + log[n..] == log;
  }

  /** What a sound game within its cap saved is read back: log, state and id, into any game. */
  lemma {:induction false} SavedGameLoads(rules: Rules, g: Game, saved: Saved, into: Game)
    requires Playable(rules) && Sound(rules, g) && FitsCap(rules, g.records) && Hashes(g.records) && Saves(g, saved)
    ensures Load(rules, into, saved) == Ended(into.(records := g.records, state := g.state, gameId := g.gameId), false)
  {
    hide Load, LogFits;
    UptoGrows(saved.parts, 0, |saved.parts|);
    if |g.records| > 0 {
      FewEnough(rules, g.records);
    }
    forall k | 0 < k <= |saved.parts|
      ensures LogFits(rules, Upto(saved.parts, k), rules.maxBytes)
    {
      UptoGrows(saved.parts, 0, k);
      UptoGrows(saved.parts, k, |saved.parts|);
      BeginningFits(rules, g.records, |Upto(saved.parts, k)|);
    }
    LoadIff(rules, into, saved);
  }
}
