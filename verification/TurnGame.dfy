/** The game object: closure state as fields. Every handler does what `TurnSteps` says, keeps the
    log a valid chain with the state its fold, and keeps or extends the log. */
module TurnGame {
  import opened Text
  import opened CanonicalJson
  import opened Pieces
  import opened TurnLog
  import A = TurnAnswer
  import E = TurnEffects
  import P = TurnReplay
  import R = TurnRuns
  import S = TurnSteps

  class TurnGame {
    const rules: Rules
    var records: seq<TurnRecord>
    var state: Value
    var frozen: bool
    var finished: bool
    var gameId: Option<Text>
    var requestId: Option<Text>
    var requestedFrom: Option<Text>
    var replayRequestId: Option<Text>
    var assembly: Option<S.Assembly>
    var buffered: seq<S.Buffered>
    var pendingFinish: Option<S.Finish>

    function Snapshot(): S.Game
      reads this
    {
      S.Game(records, state, frozen, finished, gameId, requestId, requestedFrom, replayRequestId,
             assembly, buffered, pendingFinish)
    }

    /** The log is a valid chain and the state what the rules make of it. */
    ghost predicate Valid()
      reads this
    {
      Playable(rules) && R.Sound(rules, Snapshot())
    }

    constructor (rules: Rules)
      requires Playable(rules)
      ensures Valid() && Snapshot() == S.NewGame(rules) && this.rules == rules
    {
      this.rules := rules;
      records, state := [], Copy(rules.initial);
      frozen, finished := false, false;
      gameId, requestId, requestedFrom, replayRequestId := None, None, None, None;
      assembly, buffered, pendingFinish := None, [], None;
    }

    method Fail()
      requires Valid()
      modifies this
      ensures Snapshot() == S.Fail(old(Snapshot()))
      ensures Valid() && R.Untouched(old(Snapshot()), Snapshot())
      ensures E.Stopped(Snapshot()) && finished == old(finished)
    {
      frozen := true;
      requestId := None;
      assembly := None;
      buffered := [];
    }

    /** Afterwards a log is awaited, if anyone could send it. */
    method RequestLog(net: S.Network) returns (threw: bool)
      requires Valid()
      modifies this
      ensures S.Ended(Snapshot(), threw) == S.RequestLog(old(Snapshot()), net)
      ensures Valid() && R.Untouched(old(Snapshot()), Snapshot())
      ensures net.target.Some? ==> requestId.Some?
      ensures old(requestId).None? && net.target.Some? ==>
        && requestId == replayRequestId == Some(net.freshId) && requestedFrom == net.target
        && assembly.None? && buffered == [] && threw == !net.sent
      ensures old(requestId).Some? || net.target.None? ==> Snapshot() == old(Snapshot()) && !threw
    {
      if requestId.Some? || net.target.None? {
        return false;
      }
      requestedFrom := net.target;
      requestId := Some(net.freshId);
      replayRequestId := requestId;
      assembly := None;
      buffered := [];
      return !net.sent;
    }

    /** The checks of a live move, up to where its hash or the request for the log is awaited. */
    method BeginAccept(net: S.Network, from: Text, item: S.LiveTurn) returns (begun: S.Begun)
      requires Valid()
      modifies this
      ensures begun == S.BeginAccept(rules, old(Snapshot()), net, from, item)
      ensures Snapshot() == (match begun
                             case Over(ended) => ended.game
                             case Asked(game, _) => game
                             case Hashed(_, _) => old(Snapshot()))
      ensures Valid() && R.Untouched(old(Snapshot()), Snapshot())
    {
      R.BeginAcceptCases(rules, Snapshot(), net, from, item);
      if item.gameId != gameId || frozen || finished {
        return S.Over(S.Ended(Snapshot(), false));
      }
      var record := item.record;
      if requestId.Some? {
        if !S.PrintableTurn(item) {
          return S.Over(S.Ended(Snapshot(), true));
        }
        buffered := buffered + [S.Buffered(from, S.CopyTurn(item))];
        var size := S.BufferedBytes(rules, buffered);
        if size.None? {
          return S.Over(S.Ended(Snapshot(), true));
        }
        if size.value > rules.maxBytes {
          Fail();
        }
        return S.Over(S.Ended(Snapshot(), false));
      }
      if record.index < |records| {
        if record.index < 0 || records[record.index].hash != record.hash || record.player != from {
          Fail();
        }
        return S.Over(S.Ended(Snapshot(), false));
      }
      if record.index > |records| {
        var threw := RequestLog(net);
        return if threw then S.Over(S.Ended(Snapshot(), true)) else S.Asked(Snapshot(), item);
      }
      if record.player != from || record.player != rules.players[|records| % |rules.players|] {
        Fail();
        return S.Over(S.Ended(Snapshot(), false));
      }
      return S.Hashed(record, Next(rules, records, record));
    }

    /** The rest of a live move. If a load came in between, the move need not be the next one any
        more: then the log stays valid only if the move is refused after all. */
    method EndHash(record: TurnRecord, good: bool) returns (threw: bool)
      requires Valid() && (good ==> Next(rules, records, record) || !R.Lands(rules, Snapshot(), record))
      modifies this
      ensures S.Ended(Snapshot(), threw) == S.EndHash(rules, old(Snapshot()), record, good)
      ensures Valid() && R.Extends(old(records), records)
    {
      hide R.Sound, R.Extends, R.Lands, Next, Playable, S.EndHash, S.Fail, E.Stopped;
      R.EndHashEnds(rules, Snapshot(), record, good);
      if good {
        var next := Applied(rules, state, record.move, record.player);
        if next.Some? {
          var nextRecords := records + [S.CopyRecord(record)];
          var size := RecordBytes(rules, nextRecords);
          if size.Some? {
            if size.value > rules.maxBytes {
              return true;
            }
            state := next.value;
            records := nextRecords;
            return false;
          }
        }
      }
      Fail();
      return false;
    }

    method Accept(net: S.Network, from: Text, item: S.LiveTurn) returns (threw: bool)
      requires Valid()
      modifies this
      ensures S.Ended(Snapshot(), threw) == S.Accept(rules, old(Snapshot()), net, from, item)
      ensures Valid() && R.Extends(old(records), records)
    {
      R.BeginAcceptCases(rules, Snapshot(), net, from, item);
      R.AcceptKeeps(rules, Snapshot(), net, from, item);
      var begun := BeginAccept(net, from, item);
      match begun {
        case Over(ended) =>
          return ended.threw;
        case Asked(_, turn) =>
          if !S.PrintableTurn(turn) {
            return true;
          }
          buffered := buffered + [S.Buffered(from, S.CopyTurn(turn))];
          return false;
        case Hashed(record, good) =>
          threw := EndHash(record, good);
      }
    }

    method CommitAssembly(net: S.Network) returns (threw: bool)
      requires Valid()
      modifies this
      ensures S.Ended(Snapshot(), threw) == S.CommitAssembly(rules, old(Snapshot()), net)
      ensures Valid() && R.Extends(old(records), records)
    {
      hide S.Judge, S.Replace, S.SameHashes, R.Extends, R.Sound, Validated;
      R.CommitKeeps(rules, Snapshot(), net);
      if assembly.None? {
        return false;
      }
      var verdict := JudgeAssembly(assembly.value);
      match verdict {
        case Missing =>
          return false;
        case Mismatch =>
          Fail();
          return false;
        case Assembles(log) =>
          var rebuilt := Validate(rules, log);
          if !S.PrintableLog(log) || rebuilt.None? {
            Fail();
            return false;
          }
          R.JudgedAssembles(Snapshot(), assembly.value);
          threw := ReplaceLog(net, log, rebuilt.value);
      }
    }

    /** Collects the parts in order and compares the log they make with the records. */
    method JudgeAssembly(current: S.Assembly) returns (verdict: S.Verdict)
      ensures verdict == S.Judge(Snapshot(), current)
      ensures verdict.Assembles? ==> S.SameHashes(records, verdict.log)
    {
      var count := current.manifest.chunks;
      if |current.parts| != count {
        return S.Missing;
      }
      var log: seq<TurnRecord> := [];
      for i := 0 to count
        invariant S.Assembled(current.parts, i, count, log) == S.Assembled(current.parts, 0, count, [])
      {
        if i !in current.parts {
          return S.Missing;
        }
        log := log + current.parts[i];
      }
      return if S.Acceptable(Snapshot(), current.manifest, log) then S.Assembles(log) else S.Mismatch;
    }

    /** Afterwards the log continues the one it was replaced by. */
    method ReplaceLog(net: S.Network, log: seq<TurnRecord>, rebuilt: Value) returns (threw: bool)
      requires Valid() && S.SameHashes(records, log) && Validated(rules, log) == Some(rebuilt)
      modifies this
      ensures S.Ended(Snapshot(), threw) == S.Replace(rules, old(Snapshot()), net, log, rebuilt)
      ensures Valid() && R.Extends(old(records), records) && R.Extends(log, records)
    {
      hide S.AcceptAll, S.SettleFinish, S.SameHashes, R.Sound, R.Extends, Validated;
      R.ReplaceKeeps(rules, Snapshot(), net, log, rebuilt);
      R.ReplacedKept(rules, Snapshot(), log, rebuilt);
      records := S.CopyLog(log);
      state := rebuilt;
      requestId := None;
      assembly := None;
      var waiting := buffered;
      buffered := [];
      threw := AcceptWaiting(net, waiting);
      if threw {
        return;
      }
      SettleFinish();
    }

    /** A finish that waited for the log. */
    method SettleFinish()
      requires Valid()
      modifies this
      ensures Snapshot() == S.SettleFinish(old(Snapshot()))
      ensures Valid() && R.Untouched(old(Snapshot()), Snapshot())
      ensures old(pendingFinish).Some? && !old(frozen) ==>
        var named := E.Names(records, old(pendingFinish).value.count, old(pendingFinish).value.finalHash);
        && pendingFinish.None? && (finished <==> old(finished) || named) && (frozen <==> !named)
    {
      if pendingFinish.Some? && !frozen {
        var finish := pendingFinish.value;
        pendingFinish := None;
        if finish.count != |records| || finish.finalHash != LastHash(records) {
          Fail();
        } else {
          finished := true;
        }
      }
    }

    method AcceptWaiting(net: S.Network, waiting: seq<S.Buffered>) returns (threw: bool)
      requires Valid()
      modifies this
      ensures S.Ended(Snapshot(), threw) == S.AcceptAll(rules, old(Snapshot()), net, waiting)
      ensures Valid() && R.Extends(old(records), records)
    {
      R.AcceptAllKeeps(rules, Snapshot(), net, waiting);
      ghost var all := S.AcceptAll(rules, Snapshot(), net, waiting);
      for i := 0 to |waiting|
        invariant Valid() && S.AcceptAll(rules, Snapshot(), net, waiting[i..]) == all
      {
        assert waiting[i..][1..] == waiting[i + 1..];
        threw := Accept(net, waiting[i].from, waiting[i].payload);
        if threw {
          return;
        }
      }
      return false;
    }

    method OnManifest(net: S.Network, from: Text, manifest: S.Manifest) returns (threw: bool)
      requires Valid()
      modifies this
      ensures S.Ended(Snapshot(), threw) == S.OnManifest(rules, old(Snapshot()), net, from, manifest)
      ensures Valid() && R.Extends(old(records), records)
    {
      R.ManifestKeeps(rules, Snapshot(), net, from, manifest);
      if Some(manifest.requestId) != requestId || manifest.gameId != gameId {
        return false;
      }
      if !S.ManifestOk(rules, Snapshot(), from, manifest) {
        Fail();
        return false;
      }
      if assembly.Some? && assembly.value.from != from {
        return false;
      }
      assembly := Some(S.Assembly(manifest, from, map[], 0));
      threw := CommitAssembly(net);
    }

    /** The checks of a chunk; `added` tells that its part was stored. */
    method AddPart(from: Text, chunk: S.Chunk) returns (added: bool, threw: bool)
      requires Valid()
      modifies this
      ensures Valid() && R.Untouched(old(Snapshot()), Snapshot())
      ensures match S.CheckChunk(rules, old(Snapshot()), from, chunk)
        case Done(ended) => !added && S.Ended(Snapshot(), threw) == ended
        case Assembling(game) => added && Snapshot() == game
      ensures added <==> E.Adds(rules, old(Snapshot()), from, chunk)
      ensures added ==>
        && assembly.Some? && frozen == old(frozen)
        && assembly.value.parts == old(assembly).value.parts[chunk.part := S.CopyLog(chunk.records)]
        && assembly.value.totalBytes == old(assembly).value.totalBytes + RecordBytes(rules, chunk.records).value
      ensures frozen <==> old(frozen) || E.Spoils(rules, old(Snapshot()), from, chunk)
      ensures !added && !E.Spoils(rules, old(Snapshot()), from, chunk) ==> Snapshot() == old(Snapshot())
    {
      hide RecordBytes, Chained, Folded;
      added, threw := false, false;
      if assembly.None? || assembly.value.from != from || chunk.gameId != gameId
         || Some(chunk.requestId) != requestId {
        return;
      }
      var current := assembly.value;
      if chunk.part < 0 || chunk.part >= current.manifest.chunks || |chunk.records| == 0 {
        Fail();
        return;
      }
      if chunk.part in current.parts {
        if current.parts[chunk.part] != chunk.records {
          Fail();
        }
        return;
      }
      var size := RecordBytes(rules, chunk.records);
      if size.None? {
        threw := true;
        return;
      }
      if current.totalBytes + size.value > rules.maxBytes {
        Fail();
        return;
      }
      assembly := Some(current.(totalBytes := current.totalBytes + size.value,
                                parts := current.parts[chunk.part := S.CopyLog(chunk.records)]));
      added := true;
    }

    method OnChunk(net: S.Network, from: Text, chunk: S.Chunk) returns (threw: bool)
      requires Valid()
      modifies this
      ensures S.Ended(Snapshot(), threw) == S.OnChunk(rules, old(Snapshot()), net, from, chunk)
      ensures Valid() && R.Extends(old(records), records)
    {
      R.ChunkKeeps(rules, Snapshot(), net, from, chunk);
      var added;
      added, threw := AddPart(from, chunk);
      if added {
        threw := CommitAssembly(net);
      }
    }

    /** A game is finished only at the very log the message names. */
    method OnFinish(net: S.Network, host: Option<Text>, from: Text, message: S.FinishMessage) returns (threw: bool)
      requires Valid()
      modifies this
      ensures S.Ended(Snapshot(), threw) == S.OnFinish(old(Snapshot()), net, host, from, message)
      ensures Valid() && R.Untouched(old(Snapshot()), Snapshot())
      ensures finished <==>
        old(finished)
        || (E.Heeded(old(Snapshot()), host, from, message) && E.WellFormed(message) && !E.FinishWaits(old(Snapshot()), message)
            && E.Names(records, message.count, message.finalHash))
      ensures frozen <==>
        old(frozen)
        || (E.Heeded(old(Snapshot()), host, from, message)
            && (!E.WellFormed(message)
                || (!E.FinishWaits(old(Snapshot()), message) && !E.Names(records, message.count, message.finalHash))))
      ensures E.Heeded(old(Snapshot()), host, from, message) && E.WellFormed(message) && E.FinishWaits(old(Snapshot()), message) && !threw ==>
        pendingFinish == Some(S.Finish(message.count, message.finalHash))
    {
      E.FinishIff(Snapshot(), net, host, from, message);
      if message.gameId != gameId || frozen
         || (Some(from) != host && !(Some(from) == requestedFrom && message.requestId == replayRequestId)) {
        return false;
      }
      if message.count < 0 || !S.IsHash(message.finalHash) {
        Fail();
        return false;
      }
      if requestId.Some? {
        pendingFinish := Some(S.Finish(message.count, message.finalHash));
        return false;
      }
      if message.count > |records| {
        threw := RequestLog(net);
        if !threw {
          pendingFinish := Some(S.Finish(message.count, message.finalHash));
        }
        return;
      }
      if message.count != |records| || message.finalHash != LastHash(records) {
        Fail();
      } else {
        finished := true;
      }
      return false;
    }

    /** An id once given never changes; a game under other rules is frozen. */
    method OnStart(host: Option<Text>, from: Text, message: S.StartMessage)
      requires Valid()
      modifies this
      ensures Snapshot() == S.OnStart(rules, old(Snapshot()), host, from, message)
      ensures Valid() && R.Untouched(old(Snapshot()), Snapshot())
      ensures old(gameId).Some? ==> gameId == old(gameId)
      ensures gameId != old(gameId) ==> message.players == rules.players && rules.hashJson(rules.initial) == Some(message.initialHash)
      ensures var told := Some(from) == host || Some(from) == old(requestedFrom);
        var fits := message.players == rules.players && rules.hashJson(rules.initial) == Some(message.initialHash)
                    && (old(gameId).None? || old(gameId) == Some(message.gameId));
        && (told && fits ==> gameId == Some(message.gameId) && frozen == old(frozen))
        && (told && !fits ==> frozen) && (!told ==> Snapshot() == old(Snapshot()))
    {
      if Some(from) != host && Some(from) != requestedFrom {
        return;
      }
      if Some(message.initialHash) != rules.hashJson(rules.initial) || message.players != rules.players
         || (gameId.Some? && gameId != Some(message.gameId)) {
        Fail();
        return;
      }
      gameId := Some(message.gameId);
    }

    /** A move that can be submitted is the next record, and nothing else changes but the state; any
        other is refused and changes nothing, unless the rules return what is no JSON value. */
    method Submit(net: S.Network, player: Text, move: Value) returns (done: Option<bool>)
      requires Valid()
      modifies this
      ensures Valid() && R.Extends(old(records), records)
      ensures if R.CanSubmit(rules, old(Snapshot()), net, player, move) then
                && done == Some(false) && |records| == |old(records)| + 1 && records[..|old(records)|] == old(records)
                && R.Drafts(rules, old(Snapshot()), player, move, records[|old(records)|])
                && Applied(rules, old(state), move, player) == Some(state)
                && Snapshot() == old(Snapshot()).(records := records, state := state)
              else
                || (done == None && Snapshot() == old(Snapshot()))
                || (done == Some(false) && Snapshot() == S.Fail(old(Snapshot())) && R.Unprintable(rules, old(Snapshot()), player, move))
      ensures match S.Submit(rules, old(Snapshot()), net, player, move)
        case None => done == None && Snapshot() == old(Snapshot())
        case Some(ended) => done == Some(ended.threw) && Snapshot() == ended.game
    {
      R.SubmitKeeps(rules, Snapshot(), net, player, move);
      R.SubmitIff(rules, Snapshot(), net, player, move);
      R.ExtendsItself(records);
      if frozen || finished || gameId.None? || requestId.Some? {
        return None;
      }
      if player != rules.players[|records| % |rules.players|] {
        return None;
      }
      var hash := HashOf(rules, LastHash(records), |records|, player, move);
      if hash.None? {
        return None;
      }
      var record := TurnRecord(|records|, Copy(move), player, hash.value);
      if !LogFits(rules, [record], 7000) || !LogFits(rules, records + [record], rules.maxBytes) {
        return None;
      }
      if rules.apply(Copy(state), Copy(move), player).None? || !net.sent {
        return None;
      }
      var threw := Accept(net, player, S.LiveTurn(record, gameId));
      return Some(threw);
    }

    /** Set up after a load, which does not wait for the handlers: it extends the log exactly if it
        is refused or the saved log continues the records. */
    method Initialize(net: S.Network, saved: Option<S.Saved>, isHost: bool) returns (threw: bool)
      requires Valid()
      modifies this
      ensures S.Ended(Snapshot(), threw) == S.Initialize(rules, old(Snapshot()), net, saved, isHost)
      ensures Valid()
      ensures R.Extends(old(records), records) <==>
        saved.None? || S.Load(rules, old(Snapshot()), saved.value).threw || S.SameHashes(old(records), S.SavedLog(saved.value))
      ensures (saved.None? || !S.Load(rules, old(Snapshot()), saved.value).threw) ==>
        if isHost then
          threw == !net.sent && gameId.Some? && (saved.Some? ==> gameId == Some(saved.value.gameId))
          && (saved.None? ==> gameId == if old(gameId).Some? then old(gameId) else Some(net.freshId))
        else net.target.Some? ==> requestId.Some?
    {
      R.ExtendsItself(records);
      if saved.Some? {
        R.LoadExtendsIff(rules, Snapshot(), saved.value);
        var refused := Load(saved.value);
        if refused {
          return true;
        }
      }
      if !isHost {
        threw := RequestLog(net);
        return;
      }
      if gameId.None? {
        gameId := Some(net.freshId);
      }
      return !net.sent;
    }

    method Load(saved: S.Saved) returns (threw: bool)
      requires Valid()
      modifies this
      ensures S.Ended(Snapshot(), threw) == S.Load(rules, old(Snapshot()), saved)
      ensures Valid() && (threw ==> R.Untouched(old(Snapshot()), Snapshot()))
      ensures threw <==>
        S.Miscounted(rules, saved) || !E.Whole(rules, saved.parts, saved.chunks) || !E.Consistent(rules, saved)
      ensures !threw ==> records == E.Upto(saved.parts, saved.chunks) && gameId == Some(saved.gameId)
    {
      E.LoadIff(rules, Snapshot(), saved);
      if S.Miscounted(rules, saved) {
        Fail();
        return true;
      }
      hide S.Miscounted, S.Gather, S.Reinstate, R.Sound, R.Untouched;
      var gathered := Gather(saved);
      match gathered {
        case Damaged =>
          Fail();
          return true;
        case Gathered(log) => threw := Reinstate(saved, log);
        case Unavailable => return true;
        case TooLarge => return true;
      }
    }

    /** The checks on the log as a whole. */
    method Reinstate(saved: S.Saved, log: seq<TurnRecord>) returns (threw: bool)
      requires Valid()
      modifies this
      ensures S.Ended(Snapshot(), threw) == S.Reinstate(rules, old(Snapshot()), saved, log)
      ensures Valid() && (if threw then R.Untouched(old(Snapshot()), Snapshot()) else records == log)
    {
      if |log| != saved.count || LastHash(log) != saved.finalHash {
        Fail();
        return true;
      }
      var rebuilt := Validate(rules, log);
      if rebuilt.None? {
        Fail();
        return true;
      }
      state, records, gameId := rebuilt.value, log, Some(saved.gameId);
      return false;
    }

    /** Reads the saved parts one after the other. */
    method Gather(saved: S.Saved) returns (gathered: S.Gathered)
      ensures gathered == S.Gather(rules, saved.parts, saved.chunks, 0, [])
    {
      var i: nat, log := 0, [];
      while i < saved.chunks
        invariant S.Gather(rules, saved.parts, saved.chunks, i, log) == S.Gather(rules, saved.parts, saved.chunks, 0, [])
      {
        if i >= |saved.parts| || saved.parts[i].None? {
          return S.Unavailable;
        }
        if saved.parts[i].value == [] {
          return S.Damaged;
        }
        log := log + saved.parts[i].value;
        if !LogFits(rules, log, rules.maxBytes) {
          return S.TooLarge;
        }
        i := i + 1;
      }
      return S.Gathered(log);
    }

    /** The replay timer: the request it was set for is not awaited any more, another one still is. */
    method ReplayTimesOut(expected: Text)
      requires Valid()
      modifies this
      ensures Snapshot() == S.ReplayTimesOut(old(Snapshot()), expected)
      ensures Valid() && R.Untouched(old(Snapshot()), Snapshot())
      ensures if old(requestId) == Some(expected) then requestId.None? && assembly.None? && buffered == []
              else Snapshot() == old(Snapshot())
    {
      if requestId == Some(expected) {
        requestId := None;
        assembly := None;
        buffered := [];
      }
    }

    /** Not this game's log, or not this player's turn to send it. */
    predicate Declines(asked: Text, isResponder: bool)
      reads this
    {
      gameId.None? || (asked != [] && Some(asked) != gameId) || !isResponder
    }

    /** The parts of a log on the wire. */
    method CutLog(log: seq<TurnRecord>) returns (parts: Option<seq<seq<TurnRecord>>>)
      ensures parts.None? <==> exists i :: 0 <= i < |log| && !LogFits(rules, [log[i]], 7000)
      ensures parts.Some? ==>
        && Flatten(parts.value) == log
        && forall k :: 0 <= k < |parts.value| ==> |parts.value[k]| > 0 && LogFits(rules, parts.value[k], 7000)
    {
      var bytes: Measure<TurnRecord> := records => RecordBytes(rules, records);
      assert forall records: seq<TurnRecord> :: Fits(bytes, records, 7000) == LogFits(rules, records, 7000);
      parts := Chunks(bytes, log, 7000);
    }

    /** The answer to a log request: a copy of the log, cut into the parts it is sent in. It throws
        exactly if some move is too large for a part. */
    method ReplyLog(asked: Text, request: Text, me: Text, isResponder: bool) returns (answer: Option<P.Answer>, threw: bool)
      requires Valid()
      ensures answer.Some? <==> !Declines(asked, isResponder) && !threw
      ensures threw <==>
        !Declines(asked, isResponder) && exists i :: 0 <= i < |records| && !LogFits(rules, [S.CopyRecord(records[i])], 7000)
      ensures answer.Some? ==> A.Answers(rules, Snapshot(), answer.value) && answer.value.requestId == request
    {
      if gameId.None? || (asked != [] && Some(asked) != gameId) || !isResponder {
        return None, false;
      }
      hide R.Sound, LogFits;
      var snapshot := S.CopyLog(records);
      var parts := CutLog(snapshot);
      if parts.None? {
        return None, true;
      }
      return Some(P.Answer(gameId.value, request, me, snapshot, parts.value, state)), false;
    }
  }
}
