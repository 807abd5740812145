/** A turn game await by await. Handlers take turns in one lane, but the load of a saved log and
    the replay timer do not wait for it: they can fall into any await of the handler at work. */
module TurnLane {
  import opened Text
  import opened CanonicalJson
  import opened TurnLog
  import opened TurnSteps
  import opened TurnRuns

  // ---- What the lane is waiting for --------------------------------------------------------------

  /** What follows a move: nothing, or the moves that waited for a replay with it. */
  datatype Rest = Nothing | More(waiting: seq<Buffered>)

  datatype Task =
    | Free
    | Hashing(record: TurnRecord, good: bool, rest: Rest)
    | Asking(from: Text, turn: LiveTurn, rest: Rest)
    | AskingToFinish(finish: Finish)
    | Validating(log: seq<TurnRecord>)
    | Draining(waiting: seq<Buffered>)
    | Starting(start: StartMessage)

  /** How far `initialized` has come: not settled, settled, or rejected. */
  datatype Phase = Initializing | Ready | Broken

  datatype World = World(game: Game, task: Task, phase: Phase)

  /** A handler has come to its next await, or to its end. */
  datatype Turned = Turned(game: Game, task: Task)

  function After(rest: Rest): Task {
    match rest case Nothing => Free case More(waiting) => Draining(waiting)
  }

  /** A throw ends the whole handler. */
  function Went(e: Ended, rest: Rest): Turned {
    Turned(e.game, if e.threw then Free else After(rest))
  }

  function TakeTurn(rules: Rules, g: Game, net: Network, from: Text, item: LiveTurn, rest: Rest): Turned
    requires |rules.players| > 0
  {
    match BeginAccept(rules, g, net, from, item)
    case Over(ended) => Went(ended, rest)
    case Asked(game, turn) => Turned(game, Asking(from, turn, rest))
    case Hashed(record, good) => Turned(g, Hashing(record, good, rest))
  }

  function BeginCommit(checked: Checked): Turned {
    match checked
    case Done(ended) => Turned(ended.game, Free)
    case Assembling(g) =>
      if g.assembly.None? then Turned(g, Free)
      else
        match Judge(g, g.assembly.value)
        case Missing => Turned(g, Free)
        case Mismatch => Turned(Fail(g), Free)
        case Assembles(log) => Turned(g, Validating(log))
  }

  function BeginFinish(g: Game, net: Network, host: Option<Text>, from: Text, m: FinishMessage): Turned {
    match CheckFinish(g, net, host, from, m)
    case FinishOver(game) => Turned(game, Free)
    case FinishAsked(game, threw, finish) => Turned(game, if threw then Free else AskingToFinish(finish))
  }

  /** The handler goes on from its await. */
  function Resume(rules: Rules, g: Game, task: Task, phase: Phase, net: Network): Turned
    requires |rules.players| > 0
  {
    match task
    case Free => Turned(g, Free)
    case Hashing(record, good, rest) => Went(EndHash(rules, g, record, good), rest)
    case Asking(from, turn, rest) => Went(Push(g, from, turn), rest)
    case AskingToFinish(finish) => Turned(g.(pendingFinish := Some(finish)), Free)
    case Validating(log) =>
      (match Worth(rules, log)
       case None => Turned(Fail(g), Free)
       case Some(state) => Turned(Replaced(g, log, state), Draining(g.buffered)))
    case Draining(waiting) =>
      if |waiting| == 0 then Turned(SettleFinish(g), Free)
      else TakeTurn(rules, g, net, waiting[0].from, waiting[0].payload, More(waiting[1..]))
    case Starting(start) => Turned(if phase.Ready? then EndStart(rules, g, start) else g, Free)
  }

  // ---- Without interruption ----------------------------------------------------------------------------

  function RestSize(rest: Rest): nat {
    match rest case Nothing => 0 case More(waiting) => 2 * |waiting| + 1
  }

  function Size(g: Game, task: Task): nat {
    match task
    case Free => 0
    case Hashing(_, _, rest) => 1 + RestSize(rest)
    case Asking(_, _, rest) => 1 + RestSize(rest)
    case Validating(_) => 2 + 2 * |g.buffered|
    case Draining(waiting) => 1 + 2 * |waiting|
    case _ => 1
  }

  /** What a handler comes to when nothing falls into its awaits. */
  function Through(rules: Rules, g: Game, task: Task, phase: Phase, net: Network): Game
    requires |rules.players| > 0
    decreases Size(g, task)
  {
    if task.Free? then g
    else
      var next := Resume(rules, g, task, phase, net);
      Through(rules, next.game, next.task, phase, net)
  }

  lemma {:induction false} TurnThrough(rules: Rules, g: Game, phase: Phase, net: Network, from: Text, item: LiveTurn, rest: Rest)
    requires |rules.players| > 0
    ensures var begun, taken := TakeTurn(rules, g, net, from, item, rest), Accept(rules, g, net, from, item);
      Through(rules, begun.game, begun.task, phase, net)
        == Through(rules, taken.game, if taken.threw then Free else After(rest), phase, net)
  {
    hide Through, Accept, BeginAccept;
    var begun := TakeTurn(rules, g, net, from, item, rest);
    TurnThroughStep(rules, begun.game, begun.task, phase, net);
    TakenSame(rules, g, phase, net, from, item, rest);
  }

  lemma {:induction false} TurnThroughStep(rules: Rules, g: Game, task: Task, phase: Phase, net: Network)
    requires |rules.players| > 0
    ensures var next := Resume(rules, g, task, phase, net);
      Through(rules, g, task, phase, net) == Through(rules, next.game, next.task, phase, net)
  {
  }

  lemma TakenSame(rules: Rules, g: Game, phase: Phase, net: Network, from: Text, item: LiveTurn, rest: Rest)
    requires |rules.players| > 0
    ensures var begun, taken := TakeTurn(rules, g, net, from, item, rest), Accept(rules, g, net, from, item);
      || begun == Went(taken, rest)
      || (!begun.task.Free? && Resume(rules, begun.game, begun.task, phase, net) == Went(taken, rest))
  {
  }

  lemma {:induction false} DrainingThrough(rules: Rules, g: Game, phase: Phase, net: Network, waiting: seq<Buffered>)
    requires |rules.players| > 0
    ensures var accepted := AcceptAll(rules, g, net, waiting);
      Through(rules, g, Draining(waiting), phase, net)
        == if accepted.threw then accepted.game else SettleFinish(accepted.game)
    decreases |waiting|
  {
    if |waiting| > 0 {
      var first := Accept(rules, g, net, waiting[0].from, waiting[0].payload);
      TurnThroughStep(rules, g, Draining(waiting), phase, net);
      TurnThrough(rules, g, phase, net, waiting[0].from, waiting[0].payload, More(waiting[1..]));
      if !first.threw {
        DrainingThrough(rules, first.game, phase, net, waiting[1..]);
      }
    }
  }

  /** Undisturbed, taking a live move is the single step that the game object takes. */
  lemma {:induction false} AcceptThrough(rules: Rules, g: Game, phase: Phase, net: Network, from: Text, item: LiveTurn)
    requires |rules.players| > 0
    ensures var taking := TakeTurn(rules, g, net, from, item, Nothing);
      Through(rules, taking.game, taking.task, phase, net) == Accept(rules, g, net, from, item).game
  {
    TurnThrough(rules, g, phase, net, from, item, Nothing);
  }

  /** So is a manifest or a chunk, with the validation of the log and every move that waited. */
  lemma {:induction false} CommitThrough(rules: Rules, phase: Phase, net: Network, checked: Checked)
    requires |rules.players| > 0
    ensures var committing := BeginCommit(checked);
      Through(rules, committing.game, committing.task, phase, net) == Commit(rules, checked, net).game
  {
    var committing := BeginCommit(checked);
    TurnThroughStep(rules, committing.game, committing.task, phase, net);
    if committing.task.Validating? && Worth(rules, committing.task.log).Some? {
      var replaced := Replaced(committing.game, committing.task.log, Worth(rules, committing.task.log).value);
      DrainingThrough(rules, replaced, phase, net, committing.game.buffered);
    }
  }

  /** So is a finish. */
  lemma {:induction false} FinishThrough(
    rules: Rules, g: Game, phase: Phase, net: Network, host: Option<Text>, from: Text, m: FinishMessage)
    requires |rules.players| > 0
    ensures var finishing := BeginFinish(g, net, host, from, m);
      Through(rules, finishing.game, finishing.task, phase, net) == OnFinish(g, net, host, from, m).game
  {
    var finishing := BeginFinish(g, net, host, from, m);
    TurnThroughStep(rules, finishing.game, finishing.task, phase, net);
  }

  // ---- Everything that can happen ------------------------------------------------------------------------

  datatype Event =
    | TurnArrived(from: Text, item: LiveTurn)
    | ManifestArrived(from: Text, manifest: Manifest)
    | ChunkArrived(from: Text, chunk: Chunk)
    | FinishArrived(host: Option<Text>, from: Text, finish: FinishMessage)
    | StartArrived(host: Option<Text>, from: Text, start: StartMessage)
    | Submitted(player: Text, move: Value)
    | HostFinished
    | LogWanted
    | Resumed
    | Initialized(saved: Option<Saved>, isHost: bool)
    | ReplayTimedOut(expected: Text)

  /** A handler begins when the lane is free; a start message that has begun, a move of one's own
      and the host's finish wait until the game has been set up. The load and the timer wait for
      nobody. */
  predicate Enabled(w: World, e: Event) {
    match e
    case Resumed => !w.task.Free? && (w.task.Starting? ==> !w.phase.Initializing?)
    case Initialized(_, _) => w.phase.Initializing?
    case ReplayTimedOut(_) => true
    case Submitted(_, _) => w.task.Free? && w.phase.Ready?
    case HostFinished => w.task.Free? && w.phase.Ready?
    case _ => w.task.Free?
  }

  function Turn(w: World, turned: Turned): World {
    w.(game := turned.game, task := turned.task)
  }

  function Step(rules: Rules, w: World, net: Network, e: Event): World
    requires |rules.players| > 0 && Enabled(w, e)
  {
    var g := w.game;
    match e
    case TurnArrived(from, item) => Turn(w, TakeTurn(rules, g, net, from, item, Nothing))
    case ManifestArrived(from, m) => Turn(w, BeginCommit(CheckManifest(rules, g, from, m)))
    case ChunkArrived(from, c) => Turn(w, BeginCommit(CheckChunk(rules, g, from, c)))
    case FinishArrived(host, from, m) => Turn(w, BeginFinish(g, net, host, from, m))
    case StartArrived(host, from, m) => if MayStart(g, host, from) then w.(task := Starting(m)) else w
    case Submitted(player, move) =>
      (match Submit(rules, g, net, player, move) case None => w case Some(r) => w.(game := r.game))
    case HostFinished => if g.frozen || (!g.finished && !net.sent) then w else w.(game := g.(finished := true))
    case LogWanted => w.(game := RequestLog(g, net).game)
    case Resumed => Turn(w, Resume(rules, g, w.task, w.phase, net))
    case Initialized(saved, isHost) =>
      var r := Initialize(rules, g, net, saved, isHost);
      w.(game := r.game, phase := if r.threw then Broken else Ready)
    case ReplayTimedOut(expected) => w.(game := ReplayTimesOut(g, expected))
  }

  datatype Happening = Happening(net: Network, event: Event)

  predicate Possible(rules: Rules, w: World, happenings: seq<Happening>)
    requires |rules.players| > 0
    decreases |happenings|
  {
    |happenings| == 0 ||
    (Enabled(w, happenings[0].event)
     && Possible(rules, Step(rules, w, happenings[0].net, happenings[0].event), happenings[1..]))
  }

  function Run(rules: Rules, w: World, happenings: seq<Happening>): World
    requires |rules.players| > 0 && Possible(rules, w, happenings)
    decreases |happenings|
  {
    if |happenings| == 0 then w
    else Run(rules, Step(rules, w, happenings[0].net, happenings[0].event), happenings[1..])
  }

  function NewWorld(rules: Rules): World {
    World(NewGame(rules), Free, Initializing)
  }
}
