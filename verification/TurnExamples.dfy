/** Two runs of a small turn game in which a message without the game's id meets the load. */
module TurnExamples {
  import opened Text
  import opened CanonicalJson
  import opened TurnLog
  import opened TurnSteps
  import opened TurnRuns
  import opened TurnLane
  import opened TurnHistory
  import opened TurnSizes

  const PLAYER: Text := [0x61]

  /** One player, every move allowed, and the canonical text for a hash. */
  function SmallRules(maxBytes: nat): Rules {
    Rules([PLAYER], Null, (state: Value, move: Value, player: Text) => Some(move),
          (v: Json) => CanonicalJson.CanonicalJson(v), (v: Json) => CanonicalBytes(v), maxBytes)
  }

  lemma {:induction false} SmallPlayable(maxBytes: nat)
    ensures Playable(SmallRules(maxBytes))
  {
    var rules := SmallRules(maxBytes);
    forall v: Json
      ensures rules.hashJson(v).Some? <==> Printable(v)
    {
      CanonicalIsPrint(v);
    }
    assert CollisionFree(rules.hashJson);
  }

  // ---- Plain text ---------------------------------------------------------------------------------

  lemma {:induction false} PlainEscaped(t: Text)
    requires Plain(t)
    ensures Plain(Escaped(t))
    decreases |t|
  {
    if |t| > 0 {
      PlainEscaped(t[1..]);
      assert Plain(EscapeUnit(t[0]));
    }
  }

  lemma PlainJoined(a: Text, b: Text, c: Text, d: Text)
    requires Plain(a) && Plain(b) && Plain(c) && Plain(d)
    ensures Plain(['[' as int] + (a + [COMMA] + (b + [COMMA] + (c + [COMMA] + d))) + [']' as int])
  {
  }

  function FirstInput(): Json {
    HashInput(ZeroHash(), 0, PLAYER, Null)
  }

  lemma {:induction false} FirstInputNormal()
    ensures Normalize(FirstInput()) == FirstInput()
  {
    assert NormalizeItems(FirstInput().items) == FirstInput().items;
  }

  lemma {:induction false} FirstInputPrintable()
    ensures Printable(FirstInput()) && CanonicalJson.CanonicalJson(FirstInput()) == Some(Print(FirstInput()))
  {
    hide PairedFrom, Print, Normalize, CanonicalJson.CanonicalJson;
    FirstInputNormal();
    PlainPaired(ZeroHash(), 0);
    PlainPaired(PLAYER, 0);
    CanonicalIsPrint(FirstInput());
  }

  lemma {:induction false} PrintsPlainly(a: Json, b: Json, c: Json, d: Json)
    requires Plain(Print(a)) && Plain(Print(b)) && Plain(Print(c)) && Plain(Print(d))
    ensures Plain(Print(Arr([a, b, c, d])))
  {
    FourItems(a, b, c, d);
    FourJoined(Print(a), Print(b), Print(c), Print(d));
    PlainJoined(Print(a), Print(b), Print(c), Print(d));
  }

  lemma {:induction false} QuotedPlainly(t: Text)
    requires Plain(t)
    ensures Plain(Print(Str(t)))
  {
    PlainEscaped(t);
  }

  lemma {:induction false} OthersPlain()
    ensures Plain(Print(Num(0))) && Plain(Print(Null))
  {
  }

  lemma {:induction false} FirstInputPlain()
    ensures Plain(Print(FirstInput()))
  {
    hide Print;
    OthersPlain();
    QuotedPlainly(ZeroHash());
    QuotedPlainly(PLAYER);
    PrintsPlainly(Str(ZeroHash()), Num(0), Str(PLAYER), Null);
  }

  lemma {:induction false} FourItems(a: Json, b: Json, c: Json, d: Json)
    ensures PrintItems([a, b, c, d]) == [Print(a), Print(b), Print(c), Print(d)]
  {
    assert [a, b, c, d][1..] == [b, c, d] && [b, c, d][1..] == [c, d] && [c, d][1..] == [d] && [d][1..] == [];
    assert PrintItems([d]) == [Print(d)];
    assert PrintItems([c, d]) == [Print(c)] + PrintItems([d]);
    assert PrintItems([b, c, d]) == [Print(b)] + PrintItems([c, d]);
  }

  lemma {:induction false} FourJoined(a: Text, b: Text, c: Text, d: Text)
    ensures Join([a, b, c, d], [COMMA]) == a + [COMMA] + (b + [COMMA] + (c + [COMMA] + d))
  {
    assert [a, b, c, d][1..] == [b, c, d] && [b, c, d][1..] == [c, d] && [c, d][1..] == [d];
    assert Join([c, d], [COMMA]) == c + [COMMA] + Join([d], [COMMA]);
    assert Join([b, c, d], [COMMA]) == b + [COMMA] + Join([c, d], [COMMA]);
  }

  // ---- The first move -----------------------------------------------------------------------------------

  function First(): TurnRecord {
    TurnRecord(0, Null, PLAYER, Print(FirstInput()))
  }

  lemma {:induction false} FirstPrintable()
    ensures PrintableRecord(First()) && CopyRecord(First()) == First()
  {
    FirstInputPlain();
    PlainPaired(First().hash, 0);
    PlainPaired(PLAYER, 0);
  }

  /** Room for a log of two such moves. */
  function Room(): nat {
    var one, two := CanonicalBytes(RecordsJson([First()])), CanonicalBytes(RecordsJson([First(), First()]));
    80 + (if one.Some? then one.value else 0) + (if two.Some? then two.value else 0)
  }

  function Example(): Rules {
    SmallRules(Room())
  }

  lemma {:induction false} FirstFits()
    ensures LogFits(Example(), [First()], Room()) && LogFits(Example(), [First(), First()], Room())
  {
    FirstPrintable();
    SmallPlayable(Room());
    LogBytes(Example(), [First()]);
    LogBytes(Example(), [First(), First()]);
  }

  lemma {:induction false} FirstIsNext()
    ensures Next(Example(), [], First()) && PlayerAt(Example(), 0) == PLAYER
  {
    FirstInputPrintable();
  }

  lemma {:induction false} FirstValid()
    ensures Validated(Example(), [First()]) == Some(Null) && Validated(Example(), []) == Some(Null)
  {
    FirstIsNext();
    assert [First()][..0] == [];
    assert Folded(Example(), []) == Some(Null);
    assert Applied(Example(), Null, Null, PLAYER) == Some(Null);
  }

  // ---- Two runs -------------------------------------------------------------------------------------------

  const GAME: Text := [0x67]
  const QUIET: Network := Network(None, [], true)

  /** The first move, sent without the game's id. */
  function Nameless(): Event {
    TurnArrived(PLAYER, LiveTurn(First(), None))
  }

  function Begun(): World {
    World(NewGame(Example()), Hashing(First(), true, Nothing), Initializing)
  }

  lemma {:induction false} NamelessBegins()
    ensures Step(Example(), NewWorld(Example()), QUIET, Nameless()) == Begun()
  {
    FirstIsNext();
  }

  lemma {:induction false} FirstLands(g: Game)
    requires g.state == Null && (g.records == [] || g.records == [First()])
    ensures Lands(Example(), g, First())
  {
    FirstFits();
    FirstPrintable();
    assert [] + [First()] == [First()] && [First()] + [First()] == [First(), First()];
  }

  lemma {:induction false} ThreeSteps(rules: Rules, w: World, net: Network, a: Event, b: Event, c: Event)
    requires |rules.players| > 0 && Enabled(w, a)
    requires Enabled(Step(rules, w, net, a), b) && Enabled(Step(rules, Step(rules, w, net, a), net, b), c)
    ensures var run := [Happening(net, a), Happening(net, b), Happening(net, c)];
      Possible(rules, w, run) && Run(rules, w, run) == Step(rules, Step(rules, Step(rules, w, net, a), net, b), net, c)
  {
    hide Step, Enabled;
    var x, y, z := Happening(net, a), Happening(net, b), Happening(net, c);
    assert [x, y, z][1..] == [y, z] && [y, z][1..] == [z] && [z][1..] == [];
    var w1 := Step(rules, w, net, a);
    var w2 := Step(rules, w1, net, b);
    assert Possible(rules, w2, [z]) && Run(rules, w2, [z]) == Step(rules, w2, net, c);
    assert Possible(rules, w1, [y, z]) && Run(rules, w1, [y, z]) == Step(rules, w2, net, c);
  }

  /** The saved log of one move. */
  function OneMove(): Event {
    Initialized(Some(Saved(GAME, 1, [Some([First()])], 1, First().hash)), false)
  }

  lemma {:induction false} OneMoveLoads(g: Game)
    requires g == NewGame(Example())
    ensures Load(Example(), g, OneMove().saved.value)
      == Ended(g.(state := Null, records := [First()], gameId := Some(GAME)), false)
  {
    OnePartGathered();
    FirstValid();
    hide Gather;
  }

  lemma {:induction false} OnePartGathered()
    ensures Gather(Example(), [Some([First()])], 1, 0, []) == Gathered([First()]) && Room() >= 80
  {
    hide RecordBytes;
    FirstFits();
    assert [] + [First()] == [First()];
    assert Gather(Example(), [Some([First()])], 1, 1, [First()]) == Gathered([First()]);
  }

  /** The load commits while the hash of a nameless move is awaited, the move lands on the loaded
      log, and the log is no chain any more. */
  lemma {:induction false} MoveLandsOnLoadedLog() returns (run: seq<Happening>)
    ensures Playable(Example()) && Possible(Example(), NewWorld(Example()), run)
    ensures !Sound(Example(), Run(Example(), NewWorld(Example()), run).game)
  {
    SmallPlayable(Room());
    NamelessBegins();
    OneMoveLoads(NewGame(Example()));
    FirstIsNext();
    var loaded := LoadedGame(Example(), Begun(), OneMove());
    FirstLands(loaded);
    assert !SameEnd([First()], []);
    assert !Harmless(Example(), Begun(), OneMove());
    HarmBreaks(Example(), Begun(), QUIET, OneMove());
    ThreeSteps(Example(), NewWorld(Example()), QUIET, Nameless(), OneMove(), Resumed);
    run := [Happening(QUIET, Nameless()), Happening(QUIET, OneMove()), Happening(QUIET, Resumed)];
  }

  /** A saved log without moves. */
  function NoMove(): Event {
    Initialized(Some(Saved(GAME, 0, [], 0, ZeroHash())), false)
  }

  lemma {:induction false} NoneLoads(g: Game)
    ensures var r := Load(Example(), g, NoMove().saved.value);
      r.game.records == [] && !r.threw
  {
    FirstValid();
    assert Gather(Example(), [], 0, 0, []) == Gathered([]);
  }

  /** The nameless move is taken. */
  lemma {:induction false} NamelessIsTaken()
    ensures var taken := Step(Example(), Begun(), QUIET, Resumed);
      Enabled(Begun(), Resumed) && taken.game.records == [First()] && taken.phase == Initializing && Enabled(taken, NoMove())
  {
    FirstLands(NewGame(Example()));
    FirstPrintable();
    LandCases(Example(), NewGame(Example()), First());
    assert [] + [First()] == [First()];
  }

  lemma {:induction false} NoMoveDrops(w: World)
    requires Enabled(w, NoMove())
    ensures Step(Example(), w, QUIET, NoMove()).game.records == []
  {
    hide Load;
    SmallPlayable(Room());
    NoneLoads(w.game);
    InitializedCases(Example(), w, QUIET, NoMove());
  }

  /** A nameless move is taken, and the load that commits after it throws it away. */
  lemma {:induction false} LoadDropsMove() returns (run: seq<Happening>)
    ensures Playable(Example()) && Possible(Example(), NewWorld(Example()), run) && |run| == 3
    ensures Possible(Example(), NewWorld(Example()), run[..2])
    ensures Run(Example(), NewWorld(Example()), run[..2]).game.records == [First()]
    ensures Run(Example(), NewWorld(Example()), run).game.records == []
  {
    SmallPlayable(Room());
    NamelessBegins();
    assert Enabled(NewWorld(Example()), Nameless());
    hide Step;
    NamelessIsTaken();
    var taken := Step(Example(), Begun(), QUIET, Resumed);
    NoMoveDrops(taken);
    ThreeSteps(Example(), NewWorld(Example()), QUIET, Nameless(), Resumed, NoMove());
    run := [Happening(QUIET, Nameless()), Happening(QUIET, Resumed), Happening(QUIET, NoMove())];
    TwoSteps(Example(), NewWorld(Example()), QUIET, Nameless(), Resumed);
    assert run[..2] == [Happening(QUIET, Nameless()), Happening(QUIET, Resumed)];
  }

  lemma {:induction false} TwoSteps(rules: Rules, w: World, net: Network, a: Event, b: Event)
    requires |rules.players| > 0 && Enabled(w, a) && Enabled(Step(rules, w, net, a), b)
    ensures var run := [Happening(net, a), Happening(net, b)];
      Possible(rules, w, run) && Run(rules, w, run) == Step(rules, Step(rules, w, net, a), net, b)
  {
    hide Step, Enabled;
    var x, y := Happening(net, a), Happening(net, b);
    assert [x, y][1..] == [y] && [y][1..] == [];
    var w1 := Step(rules, w, net, a);
    assert Possible(rules, w1, [y]) && Run(rules, w1, [y]) == Step(rules, w1, net, b);
  }
}
