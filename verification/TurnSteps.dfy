/** What each handler of a turn game does to the game. The game object of `TurnGame` is proved to
    follow these functions. */
module TurnSteps {
  import opened Text
  import opened CanonicalJson
  import opened TurnLog

  /** A sender that has no id yet leaves it out. */
  datatype Manifest = Manifest(gameId: Option<Text>, requestId: Text, count: int, finalHash: Text, chunks: int)

  datatype Assembly = Assembly(manifest: Manifest, from: Text, parts: map<int, seq<TurnRecord>>, totalBytes: nat)

  /** A move as broadcast. A sender may leave the game's id out. */
  datatype LiveTurn = LiveTurn(record: TurnRecord, gameId: Option<Text>)

  datatype Buffered = Buffered(from: Text, payload: LiveTurn)

  datatype Finish = Finish(count: int, finalHash: Text)

  datatype Game = Game(
    records: seq<TurnRecord>, state: Value, frozen: bool, finished: bool, gameId: Option<Text>,
    requestId: Option<Text>, requestedFrom: Option<Text>, replayRequestId: Option<Text>,
    assembly: Option<Assembly>, buffered: seq<Buffered>, pendingFinish: Option<Finish>)

  /** A handler's result: it may throw after it changed the game. */
  datatype Ended = Ended(game: Game, threw: bool)

  /** What asking for the log meets: who could answer, the new random id, whether sending works. */
  datatype Network = Network(target: Option<Text>, freshId: Text, sent: bool)

  function NewGame(rules: Rules): Game {
    Game([], Copy(rules.initial), false, false, None, None, None, None, None, [], None)
  }

  // ---- Copies and sizes ----------------------------------------------------------------------

  function CopyRecord(r: TurnRecord): TurnRecord {
    r.(move := Copy(r.move))
  }

  function CopyLog(log: seq<TurnRecord>): (r: seq<TurnRecord>)
    ensures |r| == |log| && forall i :: 0 <= i < |log| ==> r[i] == CopyRecord(log[i])
  {
    if |log| == 0 then [] else CopyLog(log[..|log| - 1]) + [CopyRecord(log[|log| - 1])]
  }

  predicate PrintableRecord(r: TurnRecord) {
    Printable(r.move) && Paired(r.player) && Paired(r.hash)
  }

  predicate PrintableLog(log: seq<TurnRecord>) {
    forall i :: 0 <= i < |log| ==> PrintableRecord(log[i])
  }

  predicate PrintableTurn(t: LiveTurn) {
    PrintableRecord(t.record) && (t.gameId.Some? ==> Paired(t.gameId.value))
  }

  function CopyTurn(t: LiveTurn): LiveTurn {
    t.(record := CopyRecord(t.record))
  }

  const FROM: Text := ['f' as int, 'r' as int, 'o' as int, 'm' as int]
  const PAYLOAD: Text := ['p' as int, 'a' as int, 'y' as int, 'l' as int, 'o' as int, 'a' as int, 'd' as int]
  const GAME_ID: Text := ['g' as int, 'a' as int, 'm' as int, 'e' as int, 'I' as int, 'd' as int]

  function TurnJson(t: LiveTurn): Json {
    Obj(RecordJson(t.record).entries + (if t.gameId.Some? then [Entry(GAME_ID, Str(t.gameId.value))] else []))
  }

  function BufferedItems(buffered: seq<Buffered>): seq<Json> {
    if |buffered| == 0 then []
    else
      var item := Obj([Entry(FROM, Str(buffered[0].from)), Entry(PAYLOAD, TurnJson(buffered[0].payload))]);
      [item] + BufferedItems(buffered[1..])
  }

  function BufferedBytes(rules: Rules, buffered: seq<Buffered>): Option<nat> {
    rules.bytes(Arr(BufferedItems(buffered)))
  }

  /** Sixty-four lower-case hexadecimal digits. */
  predicate IsHash(t: Text) {
    |t| == 64 && forall i :: 0 <= i < |t| ==> IsDigit(t[i]) || 0x61 <= t[i] <= 0x66
  }

  // ---- Handlers ---------------------------------------------------------------------------------

  function Fail(g: Game): Game {
    g.(frozen := true, requestId := None, assembly := None, buffered := [])
  }

  function RequestLog(g: Game, net: Network): Ended {
    if g.requestId.Some? || net.target.None? then Ended(g, false)
    else
      Ended(g.(requestedFrom := net.target, requestId := Some(net.freshId), replayRequestId := Some(net.freshId),
               assembly := None, buffered := []),
            !net.sent)
  }

  /** The rest of taking a move, once its hash has been checked: applied and added to the log. */
  function Land(rules: Rules, g: Game, item: TurnRecord): Ended {
    match Applied(rules, g.state, item.move, item.player)
    case None => Ended(Fail(g), false)
    case Some(next) =>
      var records := g.records + [CopyRecord(item)];
      match RecordBytes(rules, records)
      case None => Ended(Fail(g), false)
      case Some(size) =>
        if size > rules.maxBytes then Ended(g, true)
        else Ended(g.(state := next, records := records), false)
  }

  /** A live move up to where its hash is awaited: done, or still to be hashed and landed. */
  datatype Begun = Over(ended: Ended) | Asked(game: Game, turn: LiveTurn) | Hashed(record: TurnRecord, good: bool)

  function BeginAccept(rules: Rules, g: Game, net: Network, from: Text, item: LiveTurn): Begun
    requires |rules.players| > 0
  {
    var r := item.record;
    if item.gameId != g.gameId || g.frozen || g.finished then Over(Ended(g, false))
    else if g.requestId.Some? then
      if !PrintableTurn(item) then Over(Ended(g, true))
      else
        var pushed := g.(buffered := g.buffered + [Buffered(from, CopyTurn(item))]);
        match BufferedBytes(rules, pushed.buffered)
        case None => Over(Ended(pushed, true))
        case Some(size) => Over(Ended(if size > rules.maxBytes then Fail(pushed) else pushed, false))
    else if r.index < |g.records| then
      if r.index < 0 || g.records[r.index].hash != r.hash || r.player != from then Over(Ended(Fail(g), false))
      else Over(Ended(g, false))
    else if r.index > |g.records| then
      var asked := RequestLog(g, net);
      if asked.threw then Over(asked) else Asked(asked.game, item)
    else if r.player != from || r.player != PlayerAt(rules, |g.records|) then Over(Ended(Fail(g), false))
    else Hashed(r, Next(rules, g.records, r))
  }

  /** What waits for the log that was asked for. */
  function Push(g: Game, from: Text, item: LiveTurn): Ended {
    if !PrintableTurn(item) then Ended(g, true)
    else Ended(g.(buffered := g.buffered + [Buffered(from, CopyTurn(item))]), false)
  }

  /** The move once its hash is known. */
  function EndHash(rules: Rules, g: Game, item: TurnRecord, good: bool): Ended {
    if good then Land(rules, g, item) else Ended(Fail(g), false)
  }

  /** `accept`, with nothing falling into its awaits. */
  function Accept(rules: Rules, g: Game, net: Network, from: Text, item: LiveTurn): Ended
    requires |rules.players| > 0
  {
    match BeginAccept(rules, g, net, from, item)
    case Over(ended) => ended
    case Asked(game, turn) => Push(game, from, turn)
    case Hashed(record, good) => EndHash(rules, g, record, good)
  }

  function AcceptAll(rules: Rules, g: Game, net: Network, waiting: seq<Buffered>): Ended
    requires |rules.players| > 0
    decreases |waiting|
  {
    if |waiting| == 0 then Ended(g, false)
    else
      var first := Accept(rules, g, net, waiting[0].from, waiting[0].payload);
      if first.threw then first else AcceptAll(rules, first.game, net, waiting[1..])
  }

  /** The parts `i..count` after what was collected before, if all are there. */
  function Assembled(parts: map<int, seq<TurnRecord>>, i: nat, count: int, log: seq<TurnRecord>): Option<seq<TurnRecord>>
    decreases count - i
  {
    if i >= count then Some(log)
    else if i in parts then Assembled(parts, i + 1, count, log + parts[i])
    else None
  }

  predicate SameHashes(records: seq<TurnRecord>, log: seq<TurnRecord>) {
    |records| <= |log| && forall i :: 0 <= i < |records| ==> log[i].hash == records[i].hash
  }

  /** What an assembled log must meet before it replaces the records. */
  predicate Acceptable(g: Game, m: Manifest, log: seq<TurnRecord>) {
    |log| == m.count && LastHash(log) == m.finalHash && SameHashes(g.records, log)
  }

  /** A finish that waited for the log. */
  function SettleFinish(g: Game): Game {
    if g.pendingFinish.Some? && !g.frozen then
      var finish, rest := g.pendingFinish.value, g.(pendingFinish := None);
      if finish.count != |g.records| || finish.finalHash != LastHash(g.records) then Fail(rest)
      else rest.(finished := true)
    else g
  }

  function Replaced(g: Game, log: seq<TurnRecord>, state: Value): Game {
    g.(records := CopyLog(log), state := state, requestId := None, assembly := None, buffered := [])
  }

  /** The log replaced, then what waited for it. */
  function Replace(rules: Rules, g: Game, net: Network, log: seq<TurnRecord>, state: Value): Ended
    requires |rules.players| > 0
  {
    var accepted := AcceptAll(rules, Replaced(g, log, state), net, g.buffered);
    if accepted.threw then accepted else Ended(SettleFinish(accepted.game), false)
  }

  datatype Verdict = Missing | Mismatch | Assembles(log: seq<TurnRecord>)

  /** What the parts assembled so far are worth, before the log they make is validated. */
  function Judge(g: Game, a: Assembly): Verdict {
    if |a.parts| != a.manifest.chunks then Missing
    else
      match Assembled(a.parts, 0, a.manifest.chunks, [])
      case None => Missing
      case Some(log) => if Acceptable(g, a.manifest, log) then Assembles(log) else Mismatch
  }

  /** The state of a log that is valid and can be copied. */
  function Worth(rules: Rules, log: seq<TurnRecord>): Option<Value>
    requires |rules.players| > 0
  {
    if PrintableLog(log) then Validated(rules, log) else None
  }

  /** `commitAssembly`, with nothing falling into its awaits. */
  function CommitAssembly(rules: Rules, g: Game, net: Network): Ended
    requires |rules.players| > 0
  {
    if g.assembly.None? then Ended(g, false)
    else
      match Judge(g, g.assembly.value)
      case Missing => Ended(g, false)
      case Mismatch => Ended(Fail(g), false)
      case Assembles(log) =>
        match Worth(rules, log)
        case None => Ended(Fail(g), false)
        case Some(state) => Replace(rules, g, net, log, state)
  }

  predicate ManifestOk(rules: Rules, g: Game, from: Text, m: Manifest) {
    && Some(from) == g.requestedFrom && 0 <= m.count && 0 <= m.chunks <= m.count
    && m.count <= rules.maxBytes / 80 && IsHash(m.finalHash)
  }

  /** A handler is done, or goes on to commit what was assembled. */
  datatype Checked = Done(ended: Ended) | Assembling(game: Game)

  function CheckManifest(rules: Rules, g: Game, from: Text, m: Manifest): Checked {
    if Some(m.requestId) != g.requestId || m.gameId != g.gameId then Done(Ended(g, false))
    else if !ManifestOk(rules, g, from, m) then Done(Ended(Fail(g), false))
    else if g.assembly.Some? && g.assembly.value.from != from then Done(Ended(g, false))
    else Assembling(g.(assembly := Some(Assembly(m, from, map[], 0))))
  }

  function Commit(rules: Rules, checked: Checked, net: Network): Ended
    requires |rules.players| > 0
  {
    match checked
    case Done(ended) => ended
    case Assembling(game) => CommitAssembly(rules, game, net)
  }

  function OnManifest(rules: Rules, g: Game, net: Network, from: Text, m: Manifest): Ended
    requires |rules.players| > 0
  {
    Commit(rules, CheckManifest(rules, g, from, m), net)
  }

  datatype Chunk = Chunk(gameId: Option<Text>, requestId: Text, part: int, records: seq<TurnRecord>)

  function CheckChunk(rules: Rules, g: Game, from: Text, c: Chunk): Checked {
    if g.assembly.None? || g.assembly.value.from != from || c.gameId != g.gameId || Some(c.requestId) != g.requestId then
      Done(Ended(g, false))
    else
      var a := g.assembly.value;
      if c.part < 0 || c.part >= a.manifest.chunks || |c.records| == 0 then Done(Ended(Fail(g), false))
      else if c.part in a.parts then Done(Ended(if a.parts[c.part] != c.records then Fail(g) else g, false))
      else
        match RecordBytes(rules, c.records)
        case None => Done(Ended(g, true))
        case Some(size) =>
          if a.totalBytes + size > rules.maxBytes then Done(Ended(Fail(g), false))
          else
            var grown := a.(totalBytes := a.totalBytes + size, parts := a.parts[c.part := CopyLog(c.records)]);
            Assembling(g.(assembly := Some(grown)))
  }

  function OnChunk(rules: Rules, g: Game, net: Network, from: Text, c: Chunk): Ended
    requires |rules.players| > 0
  {
    Commit(rules, CheckChunk(rules, g, from, c), net)
  }

  /** `None` stands for a rejected promise. */
  function Submit(rules: Rules, g: Game, net: Network, player: Text, move: Value): Option<Ended>
    requires |rules.players| > 0
  {
    if g.frozen || g.finished || g.gameId.None? || g.requestId.Some? then None
    else if player != PlayerAt(rules, |g.records|) then None
    else
      match HashOf(rules, LastHash(g.records), |g.records|, player, move)
      case None => None
      case Some(hash) =>
        var record := TurnRecord(|g.records|, Copy(move), player, hash);
        if !LogFits(rules, [record], 7000) || !LogFits(rules, g.records + [record], rules.maxBytes) then None
        else if rules.apply(Copy(g.state), Copy(move), player).None? || !net.sent then None
        else Some(Accept(rules, g, net, player, LiveTurn(record, g.gameId)))
  }

  datatype FinishMessage = FinishMessage(gameId: Option<Text>, count: int, finalHash: Text, requestId: Option<Text>)

  /** A finish up to where the log is asked for. */
  datatype FinishChecked = FinishOver(game: Game) | FinishAsked(game: Game, threw: bool, finish: Finish)

  function CheckFinish(g: Game, net: Network, host: Option<Text>, from: Text, m: FinishMessage): FinishChecked {
    if m.gameId != g.gameId || g.frozen
       || (Some(from) != host && !(Some(from) == g.requestedFrom && m.requestId == g.replayRequestId)) then
      FinishOver(g)
    else if m.count < 0 || !IsHash(m.finalHash) then FinishOver(Fail(g))
    else if g.requestId.Some? then FinishOver(g.(pendingFinish := Some(Finish(m.count, m.finalHash))))
    else if m.count > |g.records| then
      var asked := RequestLog(g, net);
      FinishAsked(asked.game, asked.threw, Finish(m.count, m.finalHash))
    else if m.count != |g.records| || m.finalHash != LastHash(g.records) then FinishOver(Fail(g))
    else FinishOver(g.(finished := true))
  }

  /** The finish handler, with nothing falling into its await. */
  function OnFinish(g: Game, net: Network, host: Option<Text>, from: Text, m: FinishMessage): Ended {
    match CheckFinish(g, net, host, from, m)
    case FinishOver(game) => Ended(game, false)
    case FinishAsked(game, threw, finish) => Ended(if threw then game else game.(pendingFinish := Some(finish)), threw)
  }

  datatype StartMessage = StartMessage(gameId: Text, players: seq<Text>, initialHash: Text)

  predicate MayStart(g: Game, host: Option<Text>, from: Text) {
    Some(from) == host || Some(from) == g.requestedFrom
  }

  /** The rest of a start message, once the game has been set up. */
  function EndStart(rules: Rules, g: Game, m: StartMessage): Game {
    if Some(m.initialHash) != rules.hashJson(rules.initial) || m.players != rules.players
       || (g.gameId.Some? && g.gameId != Some(m.gameId)) then Fail(g)
    else g.(gameId := Some(m.gameId))
  }

  function OnStart(rules: Rules, g: Game, host: Option<Text>, from: Text, m: StartMessage): Game {
    if MayStart(g, host, from) then EndStart(rules, g, m) else g
  }

  /** A saved log, read back when the game is created. */
  datatype Saved = Saved(gameId: Text, chunks: int, parts: seq<Option<seq<TurnRecord>>>, count: int, finalHash: Text)

  /** What the parts from `i` on make of the log so far: a part may be missing or empty, or the log
      grow too large. */
  datatype Gathered = Unavailable | Damaged | TooLarge | Gathered(log: seq<TurnRecord>)

  function Gather(rules: Rules, parts: seq<Option<seq<TurnRecord>>>, chunks: int, i: nat, log: seq<TurnRecord>): (r: Gathered)
    ensures r.Gathered? ==> r.log == log + Joined(parts, chunks, i) && (r.log == log || LogFits(rules, r.log, rules.maxBytes))
    decreases chunks - i
  {
    if i >= chunks then Gathered(log)
    else if i >= |parts| || parts[i].None? then Unavailable
    else if parts[i].value == [] then Damaged
    else
      var more := log + parts[i].value;
      if !LogFits(rules, more, rules.maxBytes) then TooLarge else Gather(rules, parts, chunks, i + 1, more)
  }

  function Joined(parts: seq<Option<seq<TurnRecord>>>, chunks: int, i: nat): seq<TurnRecord>
    decreases chunks - i
  {
    if i >= chunks || i >= |parts| || parts[i].None? then [] else parts[i].value + Joined(parts, chunks, i + 1)
  }

  /** The log that was saved. */
  function SavedLog(saved: Saved): seq<TurnRecord> {
    Joined(saved.parts, saved.chunks, 0)
  }

  /** A count that no saved log has. */
  predicate Miscounted(rules: Rules, saved: Saved) {
    saved.chunks < 0 || saved.count < 0 || saved.chunks > saved.count || saved.count > rules.maxBytes / 80
  }

  function Reinstate(rules: Rules, g: Game, saved: Saved, log: seq<TurnRecord>): Ended
    requires |rules.players| > 0
  {
    if |log| != saved.count || LastHash(log) != saved.finalHash then Ended(Fail(g), true)
    else
      match Validated(rules, log)
      case None => Ended(Fail(g), true)
      case Some(state) => Ended(g.(state := state, records := log, gameId := Some(saved.gameId)), false)
  }

  /** The load: refused, and then it throws and a mismatch also freezes the game; or committed. */
  function Load(rules: Rules, g: Game, saved: Saved): Ended
    requires |rules.players| > 0
  {
    if Miscounted(rules, saved) then Ended(Fail(g), true)
    else
      match Gather(rules, saved.parts, saved.chunks, 0, [])
      case Damaged => Ended(Fail(g), true)
      case Gathered(log) => Reinstate(rules, g, saved, log)
      case _ => Ended(g, true)
  }

  /** What follows the load: the host gives the game an id if it has none, others ask for the log. */
  function Announce(g: Game, net: Network, isHost: bool): Ended {
    if !isHost then RequestLog(g, net)
    else Ended(if g.gameId.None? then g.(gameId := Some(net.freshId)) else g, !net.sent)
  }

  /** `initialized`: it throws if a saved log is refused or a message cannot be sent. */
  function Initialize(rules: Rules, g: Game, net: Network, saved: Option<Saved>, isHost: bool): Ended
    requires |rules.players| > 0
  {
    match saved
    case None => Announce(g, net, isHost)
    case Some(log) =>
      var loaded := Load(rules, g, log);
      if loaded.threw then loaded else Announce(loaded.game, net, isHost)
  }

  function ReplayTimesOut(g: Game, expected: Text): Game {
    if g.requestId == Some(expected) then g.(requestId := None, assembly := None, buffered := []) else g
  }
}
