/** What holds of a turn game over every run, awaits and load included, and between two replicas. */
module TurnHistory {
  import opened Text
  import opened CanonicalJson
  import opened TurnLog
  import opened TurnSteps
  import opened TurnRuns
  import opened TurnLane

  // ---- The invariant -------------------------------------------------------------------------------

  /** A move whose hash is awaited is still the next one, or it is not going to be added. */
  predicate MoveFine(rules: Rules, w: World)
    requires |rules.players| > 0
  {
    w.task.Hashing? && w.task.good ==>
      Next(rules, w.game.records, w.task.record) || (!w.phase.Initializing? && !Lands(rules, w.game, w.task.record))
  }

  predicate Inv(rules: Rules, w: World)
    requires |rules.players| > 0
  {
    Sound(rules, w.game) && MoveFine(rules, w)
  }

  /** Both logs end in the same record, as their lengths and last hashes tell. */
  predicate SameEnd(a: seq<TurnRecord>, b: seq<TurnRecord>) {
    |a| == |b| && LastHash(a) == LastHash(b)
  }

  function LoadedGame(rules: Rules, w: World, e: Event): Game
    requires |rules.players| > 0 && e.Initialized? && e.saved.Some?
  {
    Load(rules, w.game, e.saved.value).game
  }

  predicate LoadCommits(rules: Rules, w: World, e: Event)
    requires |rules.players| > 0
  {
    e.Initialized? && e.saved.Some? && !Load(rules, w.game, e.saved.value).threw
  }

  /** The load does not commit under a move whose hash is awaited; or it does, and the saved log
      ends where the log ended, or the move is going to be refused. */
  predicate Harmless(rules: Rules, w: World, e: Event)
    requires |rules.players| > 0
  {
    LoadCommits(rules, w, e) && w.task.Hashing? && w.task.good ==>
      SameEnd(SavedLog(e.saved.value), w.game.records) || !Lands(rules, LoadedGame(rules, w, e), w.task.record)
  }

  // ---- Steps keep it -----------------------------------------------------------------------------------

  lemma TakeTurnCases(rules: Rules, g: Game, net: Network, from: Text, item: LiveTurn, rest: Rest)
    requires |rules.players| > 0
    ensures var r := TakeTurn(rules, g, net, from, item, rest);
      && Untouched(g, r.game) && !r.task.Validating?
      && (r.task.Hashing? && r.task.good ==> Next(rules, r.game.records, r.task.record))
  {
    BeginAcceptCases(rules, g, net, from, item);
  }

  lemma BeginCommitCases(g: Game, checked: Checked)
    requires Untouched(g, CheckedGame(checked))
    ensures var r := BeginCommit(checked);
      && Untouched(g, r.game) && !r.task.Hashing?
      && (r.task.Validating? ==> SameHashes(r.game.records, r.task.log))
  {
  }

  lemma BeginFinishCases(g: Game, net: Network, host: Option<Text>, from: Text, m: FinishMessage)
    ensures var r := BeginFinish(g, net, host, from, m);
      Untouched(g, r.game) && (r.task.Free? || r.task.AskingToFinish?)
  {
  }

  /** A handler that begins leaves log and state alone; what it then awaits is checked against them. */
  lemma BeginningCases(rules: Rules, w: World, net: Network, e: Event)
    requires |rules.players| > 0 && Enabled(w, e)
    requires e.TurnArrived? || e.ManifestArrived? || e.ChunkArrived? || e.FinishArrived? || e.StartArrived? || e.HostFinished? || e.LogWanted?
    ensures var w' := Step(rules, w, net, e);
      && Untouched(w.game, w'.game)
      && (w'.task.Hashing? && w'.task.good ==> Next(rules, w'.game.records, w'.task.record))
      && (w'.task.Validating? ==> SameHashes(w'.game.records, w'.task.log))
  {
    match e
    case TurnArrived(from, item) => TakeTurnCases(rules, w.game, net, from, item, Nothing);
    case ManifestArrived(from, m) =>
      CheckedManifest(rules, w.game, from, m);
      BeginCommitCases(w.game, CheckManifest(rules, w.game, from, m));
    case ChunkArrived(from, c) =>
      CheckedChunk(rules, w.game, from, c);
      BeginCommitCases(w.game, CheckChunk(rules, w.game, from, c));
    case FinishArrived(host, from, m) => BeginFinishCases(w.game, net, host, from, m);
    case _ =>
  }

  lemma AnnounceUntouched(g: Game, net: Network, isHost: bool)
    ensures Untouched(g, Announce(g, net, isHost).game)
  {
  }

  lemma InitializedCases(rules: Rules, w: World, net: Network, e: Event)
    requires |rules.players| > 0 && Enabled(w, e) && e.Initialized?
    ensures var w' := Step(rules, w, net, e);
      && w'.task == w.task && !w'.phase.Initializing?
      && (if LoadCommits(rules, w, e) then Untouched(LoadedGame(rules, w, e), w'.game) else Untouched(w.game, w'.game))
  {
    if e.saved.Some? {
      AnnounceUntouched(Load(rules, w.game, e.saved.value).game, net, e.isHost);
    } else {
      AnnounceUntouched(w.game, net, e.isHost);
    }
  }

  lemma LoadedIsSaved(rules: Rules, w: World, e: Event)
    requires |rules.players| > 0 && LoadCommits(rules, w, e)
    ensures var g := LoadedGame(rules, w, e);
      g.records == SavedLog(e.saved.value) && Validated(rules, g.records) == Some(g.state)
  {
    hide Load;
    LoadCases(rules, w.game, e.saved.value);
  }

  lemma SameEndNext(rules: Rules, a: seq<TurnRecord>, b: seq<TurnRecord>, r: TurnRecord)
    requires |rules.players| > 0 && SameEnd(a, b) && Next(rules, a, r)
    ensures Next(rules, b, r)
  {
  }

  lemma InitializedKeeps(rules: Rules, w: World, net: Network, e: Event)
    requires Playable(rules) && Inv(rules, w) && Enabled(w, e) && e.Initialized? && Harmless(rules, w, e)
    ensures Inv(rules, Step(rules, w, net, e))
  {
    InitializedCases(rules, w, net, e);
    if LoadCommits(rules, w, e) {
      LoadedIsSaved(rules, w, e);
      if w.task.Hashing? && w.task.good && SameEnd(SavedLog(e.saved.value), w.game.records) {
        SameEndNext(rules, w.game.records, SavedLog(e.saved.value), w.task.record);
      }
    }
  }

  lemma {:induction false} ReplacedSound(rules: Rules, g: Game, log: seq<TurnRecord>, state: Value)
    requires Playable(rules) && Validated(rules, log) == Some(state)
    ensures Sound(rules, Replaced(g, log, state)) && Extends(log, Replaced(g, log, state).records)
  {
    CopyExtends(log);
    SameLogSound(rules, log, CopyLog(log));
  }

  /** Only a hash, a validation and a move that waited matter to log and state. */
  lemma ResumeQuietly(rules: Rules, g: Game, task: Task, phase: Phase, net: Network)
    requires |rules.players| > 0 && !task.Hashing? && !task.Validating? && (task.Draining? ==> |task.waiting| == 0)
    ensures var r := Resume(rules, g, task, phase, net);
      Untouched(g, r.game) && !r.task.Hashing? && !r.task.Validating?
  {
  }

  lemma ResumeTurn(rules: Rules, g: Game, task: Task, phase: Phase, net: Network)
    requires |rules.players| > 0 && task.Draining? && |task.waiting| > 0
    ensures var r := Resume(rules, g, task, phase, net);
      && Untouched(g, r.game) && !r.task.Validating?
      && (r.task.Hashing? && r.task.good ==> Next(rules, r.game.records, r.task.record))
  {
    TakeTurnCases(rules, g, net, task.waiting[0].from, task.waiting[0].payload, More(task.waiting[1..]));
  }

  lemma ResumeHash(rules: Rules, g: Game, task: Task, phase: Phase, net: Network)
    requires |rules.players| > 0 && task.Hashing?
    ensures var r := Resume(rules, g, task, phase, net);
      r.game == EndHash(rules, g, task.record, task.good).game && !r.task.Hashing? && !r.task.Validating?
  {
  }

  lemma ResumeLog(rules: Rules, g: Game, task: Task, phase: Phase, net: Network)
    requires |rules.players| > 0 && task.Validating?
    ensures var r := Resume(rules, g, task, phase, net);
      && !r.task.Hashing? && !r.task.Validating?
      && (if Worth(rules, task.log).Some? then r.game == Replaced(g, task.log, Worth(rules, task.log).value)
          else Untouched(g, r.game))
  {
  }

  lemma ResumeKeeps(rules: Rules, w: World, net: Network)
    requires Playable(rules) && Inv(rules, w)
    ensures Inv(rules, Turn(w, Resume(rules, w.game, w.task, w.phase, net)))
  {
    hide Resume;
    if w.task.Hashing? {
      ResumeHash(rules, w.game, w.task, w.phase, net);
      EndHashKeeps(rules, w.game, w.task.record, w.task.good);
    } else if w.task.Validating? {
      ResumeLog(rules, w.game, w.task, w.phase, net);
      if Worth(rules, w.task.log).Some? {
        ReplacedSound(rules, w.game, w.task.log, Worth(rules, w.task.log).value);
      }
    } else if w.task.Draining? && |w.task.waiting| > 0 {
      ResumeTurn(rules, w.game, w.task, w.phase, net);
    } else {
      ResumeQuietly(rules, w.game, w.task, w.phase, net);
    }
  }

  lemma StepKeeps(rules: Rules, w: World, net: Network, e: Event)
    requires Playable(rules) && Inv(rules, w) && Enabled(w, e) && Harmless(rules, w, e)
    ensures Inv(rules, Step(rules, w, net, e))
  {
    match e
    case Resumed => ResumeKeeps(rules, w, net);
    case Initialized(_, _) => InitializedKeeps(rules, w, net, e);
    case Submitted(player, move) => SubmitKeeps(rules, w.game, net, player, move);
    case ReplayTimedOut(_) =>
    case _ => BeginningCases(rules, w, net, e);
  }

  // ---- Over every run -------------------------------------------------------------------------------------

  predicate AllHarmless(rules: Rules, w: World, happenings: seq<Happening>)
    requires |rules.players| > 0 && Possible(rules, w, happenings)
    decreases |happenings|
  {
    |happenings| == 0 ||
    (Harmless(rules, w, happenings[0].event)
     && AllHarmless(rules, Step(rules, w, happenings[0].net, happenings[0].event), happenings[1..]))
  }

  lemma {:induction false} RunKeeps(rules: Rules, w: World, happenings: seq<Happening>)
    requires Playable(rules) && Inv(rules, w) && Possible(rules, w, happenings) && AllHarmless(rules, w, happenings)
    ensures Inv(rules, Run(rules, w, happenings))
    decreases |happenings|
  {
    if |happenings| > 0 {
      StepKeeps(rules, w, happenings[0].net, happenings[0].event);
      RunKeeps(rules, Step(rules, w, happenings[0].net, happenings[0].event), happenings[1..]);
    }
  }

  /** In every state reached, the log is a valid chain and the state its fold, unless the load
      committed under a move whose hash was awaited. */
  lemma {:induction false} ReachableSound(rules: Rules, happenings: seq<Happening>)
    requires Playable(rules) && Possible(rules, NewWorld(rules), happenings)
    requires AllHarmless(rules, NewWorld(rules), happenings)
    ensures Sound(rules, Run(rules, NewWorld(rules), happenings).game)
  {
    RunKeeps(rules, NewWorld(rules), happenings);
  }

  /** Once set up, a game is not loaded again. */
  lemma {:induction false} SetUpIsHarmless(rules: Rules, w: World, happenings: seq<Happening>)
    requires |rules.players| > 0 && Possible(rules, w, happenings) && !w.phase.Initializing?
    ensures AllHarmless(rules, w, happenings)
    decreases |happenings|
  {
    if |happenings| > 0 {
      var w' := Step(rules, w, happenings[0].net, happenings[0].event);
      assert !happenings[0].event.Initialized? && w'.phase == w.phase;
      SetUpIsHarmless(rules, w', happenings[1..]);
    }
  }

  /** The other way: the move lands on a log it was not checked against, and the chain is broken. */
  lemma HarmBreaks(rules: Rules, w: World, net: Network, e: Event)
    requires Playable(rules) && Inv(rules, w) && Enabled(w, e) && !Harmless(rules, w, e)
    ensures var loaded := Step(rules, w, net, e);
      Enabled(loaded, Resumed) && !Sound(rules, Step(rules, loaded, net, Resumed).game)
  {
    InitializedCases(rules, w, net, e);
    LoadedIsSaved(rules, w, e);
    var loaded, record := Step(rules, w, net, e), w.task.record;
    LandCases(rules, loaded.game, record);
    var broken := Step(rules, loaded, net, Resumed).game.records;
    assert broken == SavedLog(e.saved.value) + [CopyRecord(record)];
    NotNext(rules, w.game.records, SavedLog(e.saved.value), record);
    assert broken[..|SavedLog(e.saved.value)|] == SavedLog(e.saved.value);
    assert broken[|SavedLog(e.saved.value)|] == CopyRecord(record);
  }

  lemma NotNext(rules: Rules, a: seq<TurnRecord>, b: seq<TurnRecord>, r: TurnRecord)
    requires Playable(rules) && Next(rules, a, r) && !SameEnd(a, b)
    ensures !Next(rules, b, CopyRecord(r))
  {
    var copy := CopyRecord(r);
    if Next(rules, b, copy) {
      HashDetermines(rules, LastHash(a), r.index, r.player, r.move, LastHash(b), copy.index, copy.player, copy.move);
    }
  }

  /** The exact condition: whatever follows a load keeps the log valid and the state its fold, if
      and only if the load was harmless. */
  lemma {:induction false} LoadSafeIff(rules: Rules, w: World, net: Network, e: Event)
    requires Playable(rules) && Inv(rules, w) && Enabled(w, e) && e.Initialized?
    ensures Harmless(rules, w, e) <==>
      forall later: seq<Happening> ::
        Possible(rules, Step(rules, w, net, e), later) ==> Sound(rules, Run(rules, Step(rules, w, net, e), later).game)
  {
    hide Step;
    var loaded := Step(rules, w, net, e);
    if Harmless(rules, w, e) {
      forall later: seq<Happening> | Possible(rules, loaded, later)
        ensures Sound(rules, Run(rules, loaded, later).game)
      {
        SoundAfterLoad(rules, w, net, e, later);
      }
    } else {
      HarmBreaks(rules, w, net, e);
      ThenResumed(rules, loaded, net);
    }
  }

  lemma {:induction false} SoundAfterLoad(rules: Rules, w: World, net: Network, e: Event, later: seq<Happening>)
    requires Playable(rules) && Inv(rules, w) && Enabled(w, e) && e.Initialized? && Harmless(rules, w, e)
    requires Possible(rules, Step(rules, w, net, e), later)
    ensures Sound(rules, Run(rules, Step(rules, w, net, e), later).game)
  {
    InitializedCases(rules, w, net, e);
    InitializedKeeps(rules, w, net, e);
    SetUpIsHarmless(rules, Step(rules, w, net, e), later);
    RunKeeps(rules, Step(rules, w, net, e), later);
  }

  lemma {:induction false} ThenResumed(rules: Rules, w: World, net: Network)
    requires |rules.players| > 0 && Enabled(w, Resumed)
    ensures var later := [Happening(net, Resumed)];
      Possible(rules, w, later) && Run(rules, w, later) == Step(rules, w, net, Resumed)
  {
    hide Step;
    assert [Happening(net, Resumed)][1..] == [];
  }

  /** Two replicas that share a hash at some index agree on every move up to it and on the state
      there, whatever each of them went through. */
  lemma {:induction false} ReplicasAgree(rules: Rules, mine: seq<Happening>, theirs: seq<Happening>, k: nat)
    requires Playable(rules)
    requires Possible(rules, NewWorld(rules), mine) && AllHarmless(rules, NewWorld(rules), mine)
    requires Possible(rules, NewWorld(rules), theirs) && AllHarmless(rules, NewWorld(rules), theirs)
    requires var a, b := Run(rules, NewWorld(rules), mine).game.records, Run(rules, NewWorld(rules), theirs).game.records;
      k < |a| && k < |b| && a[k].hash == b[k].hash
    ensures var a, b := Run(rules, NewWorld(rules), mine).game.records, Run(rules, NewWorld(rules), theirs).game.records;
      && SameUpTo(a, b, k + 1)
      && Folded(rules, a[..k + 1]) == Folded(rules, b[..k + 1])
  {
    var a, b := Run(rules, NewWorld(rules), mine).game.records, Run(rules, NewWorld(rules), theirs).game.records;
    ReachableSound(rules, mine);
    ReachableSound(rules, theirs);
    SharedHashSharesLog(rules, a, b, k);
    SameMovesSameState(rules, a, b, k + 1);
  }

  // ---- Growth ---------------------------------------------------------------------------------------------------

  /** A log being validated continues the records. */
  predicate LogFine(w: World) {
    w.task.Validating? ==> SameHashes(w.game.records, w.task.log)
  }

  /** A load that commits continues the records, and is continued by a log being validated. */
  predicate Continues(rules: Rules, w: World, e: Event)
    requires |rules.players| > 0
  {
    LoadCommits(rules, w, e) ==>
      && SameHashes(w.game.records, SavedLog(e.saved.value))
      && (w.task.Validating? ==> SameHashes(SavedLog(e.saved.value), w.task.log))
  }

  lemma ResumeGrows(rules: Rules, w: World, net: Network)
    requires Playable(rules) && Inv(rules, w) && LogFine(w)
    ensures var r := Resume(rules, w.game, w.task, w.phase, net);
      Extends(w.game.records, r.game.records) && !r.task.Validating?
  {
    hide Resume;
    ExtendsItself(w.game.records);
    if w.task.Hashing? {
      ResumeHash(rules, w.game, w.task, w.phase, net);
      EndHashKeeps(rules, w.game, w.task.record, w.task.good);
    } else if w.task.Validating? {
      ResumeLog(rules, w.game, w.task, w.phase, net);
      if Worth(rules, w.task.log).Some? {
        ReplacedKept(rules, w.game, w.task.log, Worth(rules, w.task.log).value);
      }
    } else if w.task.Draining? && |w.task.waiting| > 0 {
      ResumeTurn(rules, w.game, w.task, w.phase, net);
    } else {
      ResumeQuietly(rules, w.game, w.task, w.phase, net);
    }
  }

  lemma StepGrows(rules: Rules, w: World, net: Network, e: Event)
    requires Playable(rules) && Inv(rules, w) && LogFine(w) && Enabled(w, e) && Continues(rules, w, e)
    ensures var w' := Step(rules, w, net, e);
      Extends(w.game.records, w'.game.records) && LogFine(w')
  {
    ExtendsItself(w.game.records);
    match e
    case Resumed => ResumeGrows(rules, w, net);
    case Initialized(_, _) =>
      InitializedCases(rules, w, net, e);
      if LoadCommits(rules, w, e) {
        LoadedIsSaved(rules, w, e);
        LoadExtendsIff(rules, w.game, e.saved.value);
      }
    case Submitted(player, move) => SubmitKeeps(rules, w.game, net, player, move);
    case ReplayTimedOut(_) =>
    case _ => BeginningCases(rules, w, net, e);
  }

  predicate AllContinue(rules: Rules, w: World, happenings: seq<Happening>)
    requires |rules.players| > 0 && Possible(rules, w, happenings)
    decreases |happenings|
  {
    |happenings| == 0 ||
    (Continues(rules, w, happenings[0].event)
     && AllContinue(rules, Step(rules, w, happenings[0].net, happenings[0].event), happenings[1..]))
  }

  /** Over every run whose load is harmless and continues the log, the log is only ever extended. */
  lemma {:induction false} RunGrows(rules: Rules, w: World, happenings: seq<Happening>)
    requires Playable(rules) && Inv(rules, w) && LogFine(w) && Possible(rules, w, happenings)
    requires AllHarmless(rules, w, happenings) && AllContinue(rules, w, happenings)
    ensures Extends(w.game.records, Run(rules, w, happenings).game.records) && LogFine(Run(rules, w, happenings))
    decreases |happenings|
  {
    if |happenings| == 0 {
      ExtendsItself(w.game.records);
    } else {
      var next := Step(rules, w, happenings[0].net, happenings[0].event);
      StepGrows(rules, w, happenings[0].net, happenings[0].event);
      StepKeeps(rules, w, happenings[0].net, happenings[0].event);
      RunGrows(rules, next, happenings[1..]);
      ExtendsAgain(w.game.records, next.game.records, Run(rules, w, happenings).game.records);
    }
  }

  // ---- Without messages that carry no id ---------------------------------------------------------------------------

  /** A move or a manifest whose sender left the game's id out. */
  predicate Nameless(e: Event) {
    (e.TurnArrived? && e.item.gameId.None?) || (e.ManifestArrived? && e.manifest.gameId.None?)
  }

  predicate AllNamed(happenings: seq<Happening>) {
    forall i :: 0 <= i < |happenings| ==> !Nameless(happenings[i].event)
  }

  /** Until it is set up, a game that was told nothing without an id has taken nothing. */
  predicate Unbegun(w: World) {
    w.phase.Initializing? ==>
      && w.game.gameId.None? && w.game.records == [] && w.game.assembly.None?
      && (w.task.Free? || w.task.AskingToFinish? || w.task.Starting?)
  }

  lemma UnbegunKeeps(rules: Rules, w: World, net: Network, e: Event)
    requires |rules.players| > 0 && Unbegun(w) && Enabled(w, e) && !Nameless(e)
    ensures Unbegun(Step(rules, w, net, e))
    ensures Harmless(rules, w, e) && Continues(rules, w, e)
  {
    if e.FinishArrived? {
      BeginFinishCases(w.game, net, e.host, e.from, e.finish);
    }
  }

  lemma {:induction false} NamedRun(rules: Rules, w: World, happenings: seq<Happening>)
    requires |rules.players| > 0 && Unbegun(w) && Possible(rules, w, happenings) && AllNamed(happenings)
    ensures AllHarmless(rules, w, happenings) && AllContinue(rules, w, happenings)
    ensures Unbegun(Run(rules, w, happenings))
    decreases |happenings|
  {
    if |happenings| > 0 {
      assert !Nameless(happenings[0].event);
      UnbegunKeeps(rules, w, happenings[0].net, happenings[0].event);
      NamedRun(rules, Step(rules, w, happenings[0].net, happenings[0].event), happenings[1..]);
    }
  }

  /** Without a message that leaves the id out, every state reached is sound, and whatever comes
      later the log is only ever extended, loads included. */
  lemma {:induction false} GrowsWhenNamed(rules: Rules, before: seq<Happening>, w: World, later: seq<Happening>)
    requires Playable(rules) && Possible(rules, NewWorld(rules), before) && w == Run(rules, NewWorld(rules), before)
    requires Possible(rules, w, later) && AllNamed(before) && AllNamed(later)
    ensures Sound(rules, w.game) && Sound(rules, Run(rules, w, later).game)
    ensures Extends(w.game.records, Run(rules, w, later).game.records)
  {
    NamedRun(rules, NewWorld(rules), before);
    RunKeeps(rules, NewWorld(rules), before);
    RunGrows(rules, NewWorld(rules), before);
    NamedRun(rules, w, later);
    RunKeeps(rules, w, later);
    RunGrows(rules, w, later);
  }

  // ---- After a freeze ------------------------------------------------------------------------------------------------

  /** A frozen game with no handler half done and no replay coming in. */
  predicate Still(w: World) {
    w.game.frozen && w.game.assembly.None? && !w.phase.Initializing?
    && (w.task.Free? || w.task.AskingToFinish? || w.task.Asking? || w.task.Starting?)
    && (w.task.Asking? ==> w.task.rest.Nothing?)
  }

  predicate Replays(e: Event) {
    e.ManifestArrived?
  }

  lemma StaysStill(rules: Rules, w: World, net: Network, e: Event)
    requires |rules.players| > 0 && Still(w) && Enabled(w, e) && !Replays(e)
    ensures Still(Step(rules, w, net, e)) && Untouched(w.game, Step(rules, w, net, e).game)
  {
    if e.FinishArrived? {
      BeginFinishCases(w.game, net, e.host, e.from, e.finish);
    }
  }

  /** Nothing thaws a frozen game, and while no replay is answered its log and state stay as they
      are, whatever moves, own or others', are made. */
  lemma {:induction false} FrozenStaysStill(rules: Rules, w: World, happenings: seq<Happening>)
    requires |rules.players| > 0 && Still(w) && Possible(rules, w, happenings)
    requires forall i :: 0 <= i < |happenings| ==> !Replays(happenings[i].event)
    ensures var r := Run(rules, w, happenings);
      Still(r) && r.game.records == w.game.records && r.game.state == w.game.state
    decreases |happenings|
  {
    if |happenings| > 0 {
      StaysStill(rules, w, happenings[0].net, happenings[0].event);
      FrozenStaysStill(rules, Step(rules, w, happenings[0].net, happenings[0].event), happenings[1..]);
    }
  }
}
