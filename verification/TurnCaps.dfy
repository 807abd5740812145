/** A turn game's log never outgrows its cap in bytes, whichever way its moves came. */
module TurnCaps {
  import opened Text
  import opened CanonicalJson
  import opened Pieces
  import opened TurnLog
  import opened TurnSteps
  import opened TurnRuns
  import opened TurnLane
  import opened TurnSizes

  predicate FitsCap(rules: Rules, log: seq<TurnRecord>) {
    |log| == 0 || LogFits(rules, log, rules.maxBytes)
  }

  /** The parts that have come are counted, and together within the cap. */
  predicate AssemblyFits(rules: Rules, a: Assembly) {
    && (forall k <- a.parts :: 0 <= k < a.manifest.chunks && |a.parts[k]| > 0 && RecordBytes(rules, a.parts[k]).Some?)
    && a.totalBytes == HeldBytes(rules, a.parts, a.manifest.chunks, 0)
    && a.totalBytes <= rules.maxBytes
  }

  predicate GameFits(rules: Rules, g: Game) {
    FitsCap(rules, g.records) && (g.assembly.Some? ==> AssemblyFits(rules, g.assembly.value))
  }

  predicate Capped(rules: Rules, w: World) {
    GameFits(rules, w.game) && (w.task.Validating? ==> FitsCap(rules, w.task.log))
  }

  /** Log and assembly as they were, or the assembly given up. */
  predicate NoMore(g: Game, r: Game) {
    r.records == g.records && (r.assembly == g.assembly || r.assembly.None?)
  }

  lemma LandFits(rules: Rules, g: Game, item: TurnRecord)
    requires GameFits(rules, g)
    ensures GameFits(rules, Land(rules, g, item).game)
  {
  }

  lemma {:induction false} PartAdded(rules: Rules, g: Game, from: Text, c: Chunk)
    requires Playable(rules) && GameFits(rules, g)
    ensures GameFits(rules, CheckedGame(CheckChunk(rules, g, from, c)))
  {
    if CheckChunk(rules, g, from, c).Assembling? {
      var a := g.assembly.value;
      CopyBytes(rules, c.records);
      HeldMoreBytes(rules, a.parts, a.manifest.chunks, c.part, CopyLog(c.records), 0);
    }
  }

  lemma {:induction false} ManifestFits(rules: Rules, g: Game, from: Text, m: Manifest)
    requires GameFits(rules, g)
    ensures GameFits(rules, CheckedGame(CheckManifest(rules, g, from, m)))
  {
    NothingHeld(rules, m.chunks, 0);
  }

  // ---- The assembled log ---------------------------------------------------------------------------

  /** The parts in order, from part `i` on. */
  function Listed(parts: map<int, seq<TurnRecord>>, i: nat, count: nat): (r: seq<seq<TurnRecord>>)
    requires i <= count && forall k :: i <= k < count ==> k in parts
    ensures |r| == count - i && forall k :: 0 <= k < |r| ==> r[k] == parts[i + k]
    decreases count - i
  {
    if i == count then [] else [parts[i]] + Listed(parts, i + 1, count)
  }

  lemma {:induction false} AssembledIsListed(parts: map<int, seq<TurnRecord>>, i: nat, count: nat, log: seq<TurnRecord>)
    requires i <= count && Assembled(parts, i, count, log).Some?
    ensures forall k :: i <= k < count ==> k in parts
    ensures Assembled(parts, i, count, log) == Some(log + Flatten(Listed(parts, i, count)))
    decreases count - i
  {
    if i < count {
      AssembledIsListed(parts, i + 1, count, log + parts[i]);
      var listed := Listed(parts, i, count);
      assert listed[1..] == Listed(parts, i + 1, count);
      assert log + (parts[i] + Flatten(listed[1..])) == log + parts[i] + Flatten(listed[1..]);
    } else {
      assert log + Flatten(Listed(parts, i, count)) == log;
    }
  }

  lemma {:induction false} JoinedPrintable(parts: seq<seq<TurnRecord>>)
    requires forall k :: 0 <= k < |parts| ==> PrintableLog(parts[k])
    ensures PrintableLog(Flatten(parts))
    decreases |parts|
  {
    if |parts| > 0 {
      JoinedPrintable(parts[1..]);
    }
  }

  /** A log assembled from parts within the cap is within it. */
  lemma {:induction false} AssembledFits(rules: Rules, g: Game)
    requires Playable(rules) && g.assembly.Some? && AssemblyFits(rules, g.assembly.value)
    requires Judge(g, g.assembly.value).Assembles?
    ensures FitsCap(rules, Judge(g, g.assembly.value).log)
  {
    var a := g.assembly.value;
    var count: nat := a.manifest.chunks;
    AssembledIsListed(a.parts, 0, count, []);
    var parts := Listed(a.parts, 0, count);
    assert Judge(g, a).log == Flatten(parts);
    if count > 0 {
      forall k | 0 <= k < count
        ensures PrintableLog(parts[k])
      {
        LogBytes(rules, parts[k]);
      }
      JoinedPrintable(parts);
      CutTakesMore(rules, parts);
      HeldAll(rules, a.parts, parts, 0);
      assert parts[0..] == parts;
    }
  }

  lemma {:induction false} CommitFits(rules: Rules, checked: Checked)
    requires Playable(rules) && GameFits(rules, CheckedGame(checked))
    ensures var r := BeginCommit(checked);
      GameFits(rules, r.game) && (r.task.Validating? ==> FitsCap(rules, r.task.log))
  {
    if BeginCommit(checked).task.Validating? {
      AssembledFits(rules, checked.game);
    }
  }

  // ---- Every step -------------------------------------------------------------------------------------

  lemma {:induction false} TurnFits(rules: Rules, g: Game, net: Network, from: Text, item: LiveTurn, rest: Rest)
    requires |rules.players| > 0
    ensures var r := TakeTurn(rules, g, net, from, item, rest);
      NoMore(g, r.game) && !r.task.Validating?
  {
  }

  lemma {:induction false} ReplacedFits(rules: Rules, g: Game, log: seq<TurnRecord>, state: Value)
    requires Playable(rules) && FitsCap(rules, log)
    ensures GameFits(rules, Replaced(g, log, state))
  {
    if |log| > 0 {
      CopyBytes(rules, log);
    }
  }

  lemma {:induction false} ResumeFits(rules: Rules, w: World, net: Network)
    requires Playable(rules) && Capped(rules, w)
    ensures Capped(rules, Turn(w, Resume(rules, w.game, w.task, w.phase, net)))
  {
    match w.task
    case Hashing(record, good, rest) => LandFits(rules, w.game, record);
    case Validating(log) =>
      if Worth(rules, log).Some? {
        ReplacedFits(rules, w.game, log, Worth(rules, log).value);
      }
    case Draining(waiting) =>
      if |waiting| > 0 {
        TurnFits(rules, w.game, net, waiting[0].from, waiting[0].payload, More(waiting[1..]));
      }
    case _ =>
  }

  lemma {:induction false} LoadFits(rules: Rules, g: Game, net: Network, saved: Option<Saved>, isHost: bool)
    requires |rules.players| > 0 && GameFits(rules, g)
    ensures GameFits(rules, Initialize(rules, g, net, saved, isHost).game)
  {
    hide Load, GameFits;
    if saved.Some? {
      SavedFits(rules, g, saved.value);
    }
    AnnounceFits(rules, g, net, isHost);
    if saved.Some? {
      AnnounceFits(rules, Load(rules, g, saved.value).game, net, isHost);
    }
  }

  lemma SavedFits(rules: Rules, g: Game, saved: Saved)
    requires |rules.players| > 0 && GameFits(rules, g)
    ensures GameFits(rules, Load(rules, g, saved).game)
  {
    hide LogFits, Validated;
  }

  lemma AnnounceFits(rules: Rules, g: Game, net: Network, isHost: bool)
    requires GameFits(rules, g)
    ensures GameFits(rules, Announce(g, net, isHost).game)
  {
  }

  lemma {:induction false} SubmitFits(rules: Rules, g: Game, net: Network, player: Text, move: Value)
    requires |rules.players| > 0 && GameFits(rules, g) && Submit(rules, g, net, player, move).Some?
    ensures GameFits(rules, Submit(rules, g, net, player, move).value.game)
  {
    var hash := HashOf(rules, LastHash(g.records), |g.records|, player, move).value;
    AcceptFits(rules, g, net, player, LiveTurn(TurnRecord(|g.records|, Copy(move), player, hash), g.gameId));
  }

  lemma {:induction false} AcceptFits(rules: Rules, g: Game, net: Network, from: Text, item: LiveTurn)
    requires |rules.players| > 0 && GameFits(rules, g)
    ensures GameFits(rules, Accept(rules, g, net, from, item).game)
  {
    hide Land;
    LandFits(rules, g, item.record);
  }

  lemma {:induction false} StepFits(rules: Rules, w: World, net: Network, e: Event)
    requires Playable(rules) && Capped(rules, w) && Enabled(w, e)
    ensures Capped(rules, Step(rules, w, net, e))
  {
    match e
    case TurnArrived(from, item) => TurnFits(rules, w.game, net, from, item, Nothing);
    case ManifestArrived(from, m) =>
      ManifestFits(rules, w.game, from, m);
      CommitFits(rules, CheckManifest(rules, w.game, from, m));
    case ChunkArrived(from, c) =>
      PartAdded(rules, w.game, from, c);
      CommitFits(rules, CheckChunk(rules, w.game, from, c));
    case Submitted(player, move) =>
      if Submit(rules, w.game, net, player, move).Some? {
        SubmitFits(rules, w.game, net, player, move);
      }
    case Resumed => ResumeFits(rules, w, net);
    case Initialized(saved, isHost) => LoadFits(rules, w.game, net, saved, isHost);
    case FinishArrived(host, from, m) => FinishFits(rules, w, net, host, from, m);
    case _ =>
  }

  lemma {:induction false} FinishFits(rules: Rules, w: World, net: Network, host: Option<Text>, from: Text, m: FinishMessage)
    requires |rules.players| > 0 && Capped(rules, w)
    ensures Capped(rules, Turn(w, BeginFinish(w.game, net, host, from, m)))
  {
  }

  /** Over every run, interrupted or not, the log is within its cap. */
  lemma {:induction false} LogStaysCapped(rules: Rules, w: World, happenings: seq<Happening>)
    requires Playable(rules) && Capped(rules, w) && Possible(rules, w, happenings)
    ensures Capped(rules, Run(rules, w, happenings))
    decreases |happenings|
  {
    if |happenings| > 0 {
      StepFits(rules, w, happenings[0].net, happenings[0].event);
      LogStaysCapped(rules, Step(rules, w, happenings[0].net, happenings[0].event), happenings[1..]);
    }
  }
}
