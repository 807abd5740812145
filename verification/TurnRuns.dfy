/** What holds of a turn game in every state it can reach, and between two replicas of it. */
module TurnRuns {
  import opened Text
  import opened CanonicalJson
  import opened TurnLog
  import opened TurnSteps

  /** The log is a valid chain and the state is what the rules make of it. */
  predicate Sound(rules: Rules, g: Game)
    requires |rules.players| > 0
  {
    Chained(rules, g.records) && Folded(rules, g.records) == Some(g.state)
  }

  /** The second log continues the first. */
  predicate Extends(a: seq<TurnRecord>, b: seq<TurnRecord>) {
    SameUpTo(a, b, |a|)
  }

  lemma {:induction false} SameJsonAgain(a: Value, b: Value, c: Value)
    requires SameJson(a, b) && SameJson(b, c)
    ensures SameJson(a, c)
  {
    NormalizeDecidesSame(a, b);
    NormalizeDecidesSame(b, c);
    NormalizeDecidesSame(a, c);
  }

  lemma {:induction false} SameJsonItself(v: Value)
    ensures SameJson(v, v) && SameJson(v, Copy(v))
  {
    NormalizeDecidesSame(v, v);
    NormalizeIsStable(v);
  }

  lemma ExtendsItself(log: seq<TurnRecord>)
    ensures Extends(log, log)
  {
    forall i | 0 <= i < |log|
      ensures SameRecord(log[i], log[i])
    {
      SameJsonItself(log[i].move);
    }
  }

  lemma SameUpToAgain(a: seq<TurnRecord>, b: seq<TurnRecord>, c: seq<TurnRecord>, n: nat)
    requires SameUpTo(a, b, n) && SameUpTo(b, c, n)
    ensures SameUpTo(a, c, n)
  {
    forall i | 0 <= i < n
      ensures SameRecord(a[i], c[i])
    {
      SameJsonAgain(a[i].move, b[i].move, c[i].move);
    }
  }

  lemma ExtendsAgain(a: seq<TurnRecord>, b: seq<TurnRecord>, c: seq<TurnRecord>)
    requires Extends(a, b) && Extends(b, c)
    ensures Extends(a, c)
  {
    SameUpToAgain(a, b, c, |a|);
  }

  lemma {:induction false} CopyExtends(log: seq<TurnRecord>)
    ensures Extends(log, CopyLog(log)) && SameUpTo(CopyLog(log), log, |log|)
  {
    forall i | 0 <= i < |log|
      ensures SameRecord(log[i], CopyLog(log)[i]) && SameRecord(CopyLog(log)[i], log[i])
    {
      SameJsonItself(log[i].move);
      NormalizeDecidesSame(CopyLog(log)[i].move, log[i].move);
      NormalizeDecidesSame(log[i].move, CopyLog(log)[i].move);
    }
  }

  lemma {:induction false} SameInputs(previous: Text, index: int, player: Text, a: Value, b: Value)
    requires SameJson(a, b)
    ensures SameJson(HashInput(previous, index, player, a), HashInput(previous, index, player, b))
    ensures IsValue(HashInput(previous, index, player, a)) && IsValue(HashInput(previous, index, player, b))
  {
    var x, y := HashInput(previous, index, player, a).items, HashInput(previous, index, player, b).items;
    assert SameJson(x[0], y[0]) && SameJson(x[1], y[1]) && SameJson(x[2], y[2]) && SameJson(x[3], y[3]);
  }

  lemma {:induction false} PrintableSame(a: Value, b: Value)
    requires SameJson(a, b)
    ensures Printable(a) <==> Printable(b)
    decreases a
  {
    match a
    case Arr(items) =>
      forall i | 0 <= i < |items|
        ensures Printable(items[i]) <==> Printable(b.items[i])
      {
        PrintableSame(items[i], b.items[i]);
      }
    case Obj(entries) =>
      forall i | 0 <= i < |entries|
        ensures PrintableEntry(entries[i]) <==> PrintableEntry(Entry(entries[i].key, Find(b.entries, entries[i].key).value))
      {
        PrintableMember(a, b, i);
      }
      PrintableMembers(entries, b.entries);
    case _ =>
  }

  lemma {:induction false} PrintableMember(a: Value, b: Value, i: nat)
    requires a.Obj? && SameJson(a, b) && i < |a.entries|
    ensures Find(b.entries, a.entries[i].key).Some?
    ensures Printable(a.entries[i].value) <==> Printable(Find(b.entries, a.entries[i].key).value)
    decreases a, 0
  {
    var value := Find(b.entries, a.entries[i].key).value;
    var k := PositionOf(Entry(a.entries[i].key, value), b.entries);
    PrintableSame(a.entries[i].value, value);
  }

  /** The members of either list are those of the other. */
  lemma {:induction false} PrintableMembers(x: seq<Entry>, y: seq<Entry>)
    requires DistinctKeys(x) && DistinctKeys(y)
    requires forall i :: 0 <= i < |x| ==> Find(y, x[i].key).Some?
    requires forall j :: 0 <= j < |y| ==> Find(x, y[j].key).Some?
    requires forall i :: 0 <= i < |x| ==>
      (PrintableEntry(x[i]) <==> PrintableEntry(Entry(x[i].key, Find(y, x[i].key).value)))
    ensures Printable(Obj(x)) <==> Printable(Obj(y))
  {
    forall i | 0 <= i < |x|
      ensures PrintableEntry(x[i]) <==> PrintableEntry(Entry(x[i].key, Find(y, x[i].key).value))
      ensures Entry(x[i].key, Find(y, x[i].key).value) in y
    {
    }
    forall j | 0 <= j < |y|
      ensures Entry(y[j].key, Find(x, y[j].key).value) in x && Find(y, y[j].key) == Some(y[j].value)
    {
      FindUnique(y, y[j]);
    }
    if Printable(Obj(x)) {
      forall j | 0 <= j < |y|
        ensures PrintableEntry(y[j])
      {
        var i := PositionOf(Entry(y[j].key, Find(x, y[j].key).value), x);
        assert PrintableEntry(x[i]);
      }
    }
    if Printable(Obj(y)) {
      forall i | 0 <= i < |x|
        ensures PrintableEntry(x[i])
      {
        var j := PositionOf(Entry(x[i].key, Find(y, x[i].key).value), y);
        assert PrintableEntry(y[j]);
      }
    }
  }

  /** The hash does not see the key order. */
  lemma {:induction false} SameMoveSameHash(rules: Rules, previous: Text, index: int, player: Text, a: Value, b: Value)
    requires CollisionFree(rules.hashJson) && SameJson(a, b)
    requires HashOf(rules, previous, index, player, a).Some?
    ensures HashOf(rules, previous, index, player, a) == HashOf(rules, previous, index, player, b)
  {
    SameInputs(previous, index, player, a, b);
    SameValueSameHash(rules, HashInput(previous, index, player, a), HashInput(previous, index, player, b));
  }

  lemma {:induction false} SameValueSameHash(rules: Rules, x: Value, y: Value)
    requires CollisionFree(rules.hashJson) && SameJson(x, y) && rules.hashJson(x).Some?
    ensures rules.hashJson(x) == rules.hashJson(y)
  {
    assert Printable(x);
    PrintableSame(x, y);
    CanonicalIffSame(x, y);
    assert SameText(x, y);
  }

  /** What is hashed is a JSON array: the previous hash, the index, the player and the move. */
  lemma {:induction false} HashesText(previous: Text, index: int, player: Text, move: Value)
    requires Paired(previous) && Paired(player) && Printable(move)
    ensures var text := CanonicalJson.CanonicalJson(HashInput(previous, index, player, move));
      text.Some? && ReadJson(text.value) == Some(Arr([Str(previous), Num(index), Str(player), Copy(move)]))
  {
    var input := HashInput(previous, index, player, move);
    assert Printable(input);
    CanonicalReadsBack(input);
    assert NormalizeItems(input.items) == [Str(previous), Num(index), Str(player), Copy(move)];
  }

  lemma SameNext(rules: Rules, a: seq<TurnRecord>, b: seq<TurnRecord>, r: TurnRecord, r': TurnRecord)
    requires Playable(rules) && Next(rules, a, r) && SameRecord(r, r') && |a| == |b| && LastHash(a) == LastHash(b)
    ensures Next(rules, b, r')
  {
    SameMoveSameHash(rules, LastHash(a), r.index, r.player, r.move, r'.move);
  }

  lemma SameChained(rules: Rules, a: seq<TurnRecord>, b: seq<TurnRecord>, i: nat)
    requires Playable(rules) && SameUpTo(a, b, |a|) && |a| == |b| && Chained(rules, a) && i < |b|
    ensures Next(rules, b[..i], b[i])
  {
    if i > 0 {
      assert a[..i][i - 1] == a[i - 1] && b[..i][i - 1] == b[i - 1];
      assert SameRecord(a[i - 1], b[i - 1]);
    }
    SameNext(rules, a[..i], b[..i], a[i], b[i]);
  }

  /** A log with the same records is as good. */
  lemma {:induction false} SameLogSound(rules: Rules, a: seq<TurnRecord>, b: seq<TurnRecord>)
    requires Playable(rules) && SameUpTo(a, b, |a|) && |a| == |b| && Chained(rules, a)
    ensures Chained(rules, b) && Folded(rules, b) == Folded(rules, a)
  {
    forall i | 0 <= i < |b|
      ensures Next(rules, b[..i], b[i])
    {
      SameChained(rules, a, b, i);
    }
    SameMovesSameState(rules, a, b, |a|);
    assert a[..|a|] == a && b[..|b|] == b;
  }

  lemma {:induction false} CopyPrints(v: Value)
    requires Printable(v)
    ensures Printable(Copy(v))
  {
    SameJsonItself(v);
    PrintableSame(v, Copy(v));
  }

  lemma {:induction false} FoldPrints(rules: Rules, log: seq<TurnRecord>)
    requires Printable(rules.initial) && Folded(rules, log).Some?
    ensures Printable(Folded(rules, log).value)
  {
    if |log| == 0 {
      CopyPrints(rules.initial);
    } else {
      var last, state := log[|log| - 1], Folded(rules, log[..|log| - 1]).value;
      CopyPrints(rules.apply(Copy(state), Copy(last.move), last.player).value);
    }
  }

  /** Whatever the rules return, the state of a game can be printed, sent and stored. */
  lemma {:induction false} StatePrints(rules: Rules, g: Game)
    requires Playable(rules) && Sound(rules, g)
    ensures Printable(g.state) && Copied(g.state)
  {
    FoldPrints(rules, g.records);
  }

  // ---- Handlers -------------------------------------------------------------------------------------

  /** A handler kept the log valid and the state its fold, and kept or extended the log. */
  predicate Kept(rules: Rules, g: Game, r: Game)
    requires |rules.players| > 0
  {
    Sound(rules, r) && Extends(g.records, r.records)
  }

  predicate Untouched(g: Game, r: Game) {
    r.records == g.records && r.state == g.state
  }

  lemma UntouchedKept(rules: Rules, g: Game, r: Game)
    requires |rules.players| > 0 && Sound(rules, g) && Untouched(g, r)
    ensures Kept(rules, g, r)
  {
    ExtendsItself(g.records);
  }

  lemma KeptAgain(rules: Rules, a: Game, b: Game, c: Game)
    requires |rules.players| > 0 && Extends(a.records, b.records) && Kept(rules, b, c)
    ensures Kept(rules, a, c)
  {
    ExtendsAgain(a.records, b.records, c.records);
  }

  function Landed(g: Game, item: TurnRecord, next: Value): Game {
    g.(state := next, records := g.records + [CopyRecord(item)])
  }

  lemma LandedKept(rules: Rules, g: Game, item: TurnRecord, next: Value)
    requires Playable(rules) && Sound(rules, g) && Next(rules, g.records, item)
    requires Applied(rules, g.state, item.move, item.player) == Some(next)
    ensures Kept(rules, g, Landed(g, item, next))
  {
    var copy := CopyRecord(item);
    SameJsonItself(item.move);
    SameMoveSameHash(rules, LastHash(g.records), item.index, item.player, item.move, copy.move);
    ChainedSnoc(rules, g.records, copy);
    AppliedToCopy(rules, g.state, item.move, item.player);
    assert (g.records + [copy])[..|g.records|] == g.records;
    ExtendsItself(g.records);
  }

  lemma AppliedToCopy(rules: Rules, state: Value, move: Value, player: Text)
    ensures Applied(rules, state, Copy(move), player) == Applied(rules, state, move, player)
  {
    NormalizeIsStable(move);
  }

  /** The rules allow the move in this state, and the log with it stays within its cap. */
  predicate Lands(rules: Rules, g: Game, item: TurnRecord) {
    Applied(rules, g.state, item.move, item.player).Some? && LogFits(rules, g.records + [CopyRecord(item)], rules.maxBytes)
  }

  lemma LandCases(rules: Rules, g: Game, item: TurnRecord)
    ensures var r := Land(rules, g, item).game;
      if Lands(rules, g, item) then r == Landed(g, item, Applied(rules, g.state, item.move, item.player).value)
      else Untouched(g, r)
  {
  }

  lemma EndHashKeeps(rules: Rules, g: Game, item: TurnRecord, good: bool)
    requires Playable(rules) && Sound(rules, g) && (good ==> Next(rules, g.records, item) || !Lands(rules, g, item))
    ensures Kept(rules, g, EndHash(rules, g, item, good).game)
  {
    var r := EndHash(rules, g, item, good).game;
    LandCases(rules, g, item);
    if Untouched(g, r) {
      UntouchedKept(rules, g, r);
    } else {
      LandedKept(rules, g, item, Applied(rules, g.state, item.move, item.player).value);
    }
  }

  lemma EndHashEnds(rules: Rules, g: Game, item: TurnRecord, good: bool)
    requires Playable(rules) && Sound(rules, g) && (good ==> Next(rules, g.records, item) || !Lands(rules, g, item))
    ensures var ended := EndHash(rules, g, item, good);
      && Sound(rules, ended.game) && Extends(g.records, ended.game.records)
      && ended == if good then Land(rules, g, item) else Ended(Fail(g), false)
  {
    hide Sound, Extends;
    EndHashKeeps(rules, g, item, good);
  }

  /** Up to its await a live move leaves log and state alone, and is the next one if it goes on. */
  lemma BeginAcceptCases(rules: Rules, g: Game, net: Network, from: Text, item: LiveTurn)
    requires |rules.players| > 0
    ensures match BeginAccept(rules, g, net, from, item)
      case Over(ended) => Untouched(g, ended.game)
      case Asked(game, turn) => Untouched(g, game) && turn == item
      case Hashed(record, good) => record == item.record && record.player == from && good == Next(rules, g.records, record)
  {
  }

  lemma AcceptKeeps(rules: Rules, g: Game, net: Network, from: Text, item: LiveTurn)
    requires Playable(rules) && Sound(rules, g)
    ensures Kept(rules, g, Accept(rules, g, net, from, item).game)
  {
    BeginAcceptCases(rules, g, net, from, item);
    match BeginAccept(rules, g, net, from, item)
    case Hashed(record, good) => EndHashKeeps(rules, g, record, good);
    case _ => UntouchedKept(rules, g, Accept(rules, g, net, from, item).game);
  }

  lemma {:induction false} AcceptAllKeeps(rules: Rules, g: Game, net: Network, waiting: seq<Buffered>)
    requires Playable(rules) && Sound(rules, g)
    ensures Kept(rules, g, AcceptAll(rules, g, net, waiting).game)
    decreases |waiting|
  {
    if |waiting| == 0 {
      UntouchedKept(rules, g, g);
    } else {
      var first := Accept(rules, g, net, waiting[0].from, waiting[0].payload);
      AcceptKeeps(rules, g, net, waiting[0].from, waiting[0].payload);
      if !first.threw {
        AcceptAllKeeps(rules, first.game, net, waiting[1..]);
        KeptAgain(rules, g, first.game, AcceptAll(rules, first.game, net, waiting[1..]).game);
      }
    }
  }

  /** The log that replaces the records continues them: it was checked by hashes alone. */
  lemma AcceptableExtends(rules: Rules, records: seq<TurnRecord>, log: seq<TurnRecord>)
    requires Playable(rules) && Chained(rules, records) && Chained(rules, log) && SameHashes(records, log)
    ensures Extends(records, log)
  {
    if |records| > 0 {
      SharedHashSharesLog(rules, records, log, |records| - 1);
    }
  }

  lemma {:induction false} ReplacedKept(rules: Rules, g: Game, log: seq<TurnRecord>, state: Value)
    requires Playable(rules) && Sound(rules, g) && SameHashes(g.records, log) && Validated(rules, log) == Some(state)
    ensures Kept(rules, g, Replaced(g, log, state)) && Extends(log, CopyLog(log))
  {
    AcceptableExtends(rules, g.records, log);
    CopyExtends(log);
    SameLogSound(rules, log, CopyLog(log));
    ExtendsAgain(g.records, log, CopyLog(log));
  }

  lemma ReplaceKeeps(rules: Rules, g: Game, net: Network, log: seq<TurnRecord>, state: Value)
    requires Playable(rules) && Sound(rules, g) && SameHashes(g.records, log) && Validated(rules, log) == Some(state)
    ensures var r := Replace(rules, g, net, log, state).game;
      Kept(rules, g, r) && Extends(log, r.records)
  {
    var replaced := Replaced(g, log, state);
    ReplacedKept(rules, g, log, state);
    AcceptAllKeeps(rules, replaced, net, g.buffered);
    var accepted := AcceptAll(rules, replaced, net, g.buffered).game;
    KeptAgain(rules, g, replaced, accepted);
    ExtendsAgain(log, replaced.records, accepted.records);
    ReplaceCases(rules, g, net, log, state);
  }

  lemma {:induction false} ReplaceCases(rules: Rules, g: Game, net: Network, log: seq<TurnRecord>, state: Value)
    requires |rules.players| > 0
    ensures Untouched(AcceptAll(rules, Replaced(g, log, state), net, g.buffered).game, Replace(rules, g, net, log, state).game)
  {
  }

  /** A log that completes an assembly continues the records by hash. */
  lemma JudgedAssembles(g: Game, a: Assembly)
    requires Judge(g, a).Assembles?
    ensures SameHashes(g.records, Judge(g, a).log)
  {
  }

  lemma CommitCases(rules: Rules, g: Game, net: Network)
    requires |rules.players| > 0
    ensures var r := CommitAssembly(rules, g, net).game;
      if g.assembly.Some? && Judge(g, g.assembly.value).Assembles? && Worth(rules, Judge(g, g.assembly.value).log).Some? then
        var log := Judge(g, g.assembly.value).log;
        r == Replace(rules, g, net, log, Worth(rules, log).value).game
      else Untouched(g, r)
  {
  }

  lemma CommitKeeps(rules: Rules, g: Game, net: Network)
    requires Playable(rules) && Sound(rules, g)
    ensures Kept(rules, g, CommitAssembly(rules, g, net).game)
  {
    CommitCases(rules, g, net);
    if g.assembly.Some? && Judge(g, g.assembly.value).Assembles? && Worth(rules, Judge(g, g.assembly.value).log).Some? {
      var log := Judge(g, g.assembly.value).log;
      JudgedAssembles(g, g.assembly.value);
      ReplaceKeeps(rules, g, net, log, Worth(rules, log).value);
    } else {
      UntouchedKept(rules, g, CommitAssembly(rules, g, net).game);
    }
  }

  lemma CheckedManifest(rules: Rules, g: Game, from: Text, m: Manifest)
    ensures Untouched(g, CheckedGame(CheckManifest(rules, g, from, m)))
  {
  }

  lemma CheckedChunk(rules: Rules, g: Game, from: Text, c: Chunk)
    ensures Untouched(g, CheckedGame(CheckChunk(rules, g, from, c)))
  {
  }

  function CheckedGame(c: Checked): Game {
    match c case Done(ended) => ended.game case Assembling(game) => game
  }

  lemma CheckedKeeps(rules: Rules, g: Game, net: Network, checked: Checked)
    requires Playable(rules) && Sound(rules, g) && Untouched(g, CheckedGame(checked))
    ensures Kept(rules, g, Commit(rules, checked, net).game)
  {
    match checked
    case Done(ended) => UntouchedKept(rules, g, ended.game);
    case Assembling(game) => CommitKeeps(rules, game, net);
  }

  lemma ManifestKeeps(rules: Rules, g: Game, net: Network, from: Text, m: Manifest)
    requires Playable(rules) && Sound(rules, g)
    ensures Kept(rules, g, OnManifest(rules, g, net, from, m).game)
  {
    CheckedManifest(rules, g, from, m);
    CheckedKeeps(rules, g, net, CheckManifest(rules, g, from, m));
  }

  lemma ChunkKeeps(rules: Rules, g: Game, net: Network, from: Text, c: Chunk)
    requires Playable(rules) && Sound(rules, g)
    ensures Kept(rules, g, OnChunk(rules, g, net, from, c).game)
  {
    CheckedChunk(rules, g, from, c);
    CheckedKeeps(rules, g, net, CheckChunk(rules, g, from, c));
  }

  lemma SubmitKeeps(rules: Rules, g: Game, net: Network, player: Text, move: Value)
    requires Playable(rules) && Sound(rules, g)
    ensures match Submit(rules, g, net, player, move) case None => true case Some(r) => Kept(rules, g, r.game)
  {
    if Submit(rules, g, net, player, move).Some? {
      var hash := HashOf(rules, LastHash(g.records), |g.records|, player, move).value;
      AcceptKeeps(rules, g, net, player, LiveTurn(TurnRecord(|g.records|, Copy(move), player, hash), g.gameId));
    }
  }

  /** The record of a move that this player would make next, and that can be sent. */
  predicate Drafts(rules: Rules, g: Game, player: Text, move: Value, r: TurnRecord)
    requires |rules.players| > 0
  {
    r.player == player && r.move == Copy(move) && Next(rules, g.records, r) && LogFits(rules, [r], 7000)
  }

  predicate Live(g: Game) {
    !g.frozen && !g.finished && g.gameId.Some? && g.requestId.None?
  }

  /** A live game, the player's turn, a move that the rules allow and that fits, and a network that
      sends. */
  ghost predicate CanSubmit(rules: Rules, g: Game, net: Network, player: Text, move: Value)
    requires |rules.players| > 0
  {
    Live(g) && net.sent && exists r :: Drafts(rules, g, player, move, r) && Lands(rules, g, r)
  }

  /** The rules return a state that is no JSON value. */
  predicate Unprintable(rules: Rules, g: Game, player: Text, move: Value) {
    var next := rules.apply(Copy(g.state), Copy(move), player);
    next.Some? && !Printable(next.value)
  }

  /** The hash of a move does not see whether it was copied, nor does its size. */
  lemma {:induction false} DraftIsHashed(rules: Rules, g: Game, player: Text, move: Value, r: TurnRecord)
    requires Playable(rules) && Drafts(rules, g, player, move, r)
    ensures HashOf(rules, LastHash(g.records), |g.records|, player, move) == Some(r.hash)
    ensures r == TurnRecord(|g.records|, Copy(move), player, r.hash) && CopyRecord(r) == r && SameJson(r.move, move)
  {
    hide HashOf, LogFits, SameJson, Normalize;
    NormalizeIsStable(move);
    NormalizeDecidesSame(Copy(move), move);
    SameMoveSameHash(rules, LastHash(g.records), |g.records|, player, Copy(move), move);
  }

  lemma {:induction false} HashedIsDraft(rules: Rules, g: Game, player: Text, move: Value)
    requires Playable(rules) && player == PlayerAt(rules, |g.records|)
    requires HashOf(rules, LastHash(g.records), |g.records|, player, move).Some?
    ensures var r := TurnRecord(|g.records|, Copy(move), player, HashOf(rules, LastHash(g.records), |g.records|, player, move).value);
      Next(rules, g.records, r) && CopyRecord(r) == r
  {
    NormalizeIsStable(move);
    SameMoveSameHash(rules, LastHash(g.records), |g.records|, player, move, Copy(move));
  }

  /** A submitted move is appended exactly if it can be; and if not, nothing happens, unless the rules
      allow it but return what is no JSON value: then the game freezes. */
  lemma {:induction false} SubmitIff(rules: Rules, g: Game, net: Network, player: Text, move: Value)
    requires Playable(rules)
    ensures var done := Submit(rules, g, net, player, move);
      if CanSubmit(rules, g, net, player, move) then
        exists r :: Drafts(rules, g, player, move, r) && Applied(rules, g.state, move, player).Some?
          && done == Some(Ended(g.(state := Applied(rules, g.state, move, player).value, records := g.records + [r]), false))
      else done.None? || (done == Some(Ended(Fail(g), false)) && Unprintable(rules, g, player, move))
  {
    if CanSubmit(rules, g, net, player, move) {
      var r :| Drafts(rules, g, player, move, r) && Lands(rules, g, r);
      SubmitsDraft(rules, g, net, player, move, r);
    } else if Submit(rules, g, net, player, move).Some? {
      HashedIsDraft(rules, g, player, move);
      var r := TurnRecord(|g.records|, Copy(move), player, HashOf(rules, LastHash(g.records), |g.records|, player, move).value);
      assert Drafts(rules, g, player, move, r) && !Lands(rules, g, r);
      AppliedToCopy(rules, g.state, move, player);
    }
  }

  lemma {:induction false} SubmitsDraft(rules: Rules, g: Game, net: Network, player: Text, move: Value, r: TurnRecord)
    requires Playable(rules) && Live(g) && net.sent && Drafts(rules, g, player, move, r) && Lands(rules, g, r)
    ensures Applied(rules, g.state, move, player).Some?
    ensures Submit(rules, g, net, player, move)
      == Some(Ended(g.(state := Applied(rules, g.state, move, player).value, records := g.records + [r]), false))
  {
    DraftIsHashed(rules, g, player, move, r);
    AppliedToCopy(rules, g.state, move, player);
  }

  /** A load that is not refused puts the saved log in, with the state it leads to. */
  lemma LoadCases(rules: Rules, g: Game, saved: Saved)
    requires |rules.players| > 0
    ensures var r := Load(rules, g, saved);
      if r.threw then Untouched(g, r.game) else r.game.records == SavedLog(saved) && Validated(rules, SavedLog(saved)) == Some(r.game.state)
  {
    hide Validated, LogFits;
  }

  /** A load that replaces records by a log that does not continue them loses moves; the condition
      is exact. */
  lemma LoadExtendsIff(rules: Rules, g: Game, saved: Saved)
    requires Playable(rules) && Sound(rules, g)
    ensures Extends(g.records, Load(rules, g, saved).game.records)
      <==> Load(rules, g, saved).threw || SameHashes(g.records, SavedLog(saved))
  {
    hide Load;
    LoadCases(rules, g, saved);
    ExtendsItself(g.records);
    if !Load(rules, g, saved).threw && SameHashes(g.records, SavedLog(saved)) {
      AcceptableExtends(rules, g.records, SavedLog(saved));
    }
  }

  /** The move is the sender's own and the next one, the rules allow it, and the log with it stays
      within its cap. */
  predicate Allowed(rules: Rules, g: Game, from: Text, r: TurnRecord)
    requires |rules.players| > 0
  {
    r.player == from && Next(rules, g.records, r) && Lands(rules, g, r)
  }

  /** A move of the log, sent again by the player who made it. */
  predicate Repeats(g: Game, from: Text, r: TurnRecord) {
    0 <= r.index < |g.records| && g.records[r.index].hash == r.hash && r.player == from
  }

  /** All is well with the move but the size of the log. */
  predicate Oversized(rules: Rules, g: Game, from: Text, r: TurnRecord)
    requires |rules.players| > 0
  {
    && r.player == from && Next(rules, g.records, r) && Applied(rules, g.state, r.move, r.player).Some?
    && RecordBytes(rules, g.records + [CopyRecord(r)]).Some? && !Lands(rules, g, r)
  }

  /** The log is asked for, from whoever can send it, and the move waits for it. */
  predicate AsksFor(g: Game, net: Network, from: Text, item: LiveTurn, e: Ended) {
    && Untouched(g, e.game) && e.game.frozen == g.frozen
    && (net.target.Some? ==> e.game.requestId == Some(net.freshId) && e.game.requestedFrom == net.target)
    && (net.target.Some? && net.sent && PrintableTurn(item) ==> !e.threw && e.game.buffered == [Buffered(from, CopyTurn(item))])
  }

  /** What becomes of a move in a live game that awaits no log: it is added if and only if it is
      allowed; one that repeats the log changes nothing; one beyond the end of the log has the log
      asked for; one that only makes the log too large is refused; any other freezes the game. */
  lemma AcceptIffAllowed(rules: Rules, g: Game, net: Network, from: Text, item: LiveTurn)
    requires |rules.players| > 0 && item.gameId == g.gameId && !g.frozen && !g.finished && g.requestId.None?
    ensures var r, e := item.record, Accept(rules, g, net, from, item);
      if Allowed(rules, g, from, r) then
        e == Ended(g.(records := g.records + [CopyRecord(r)], state := Applied(rules, g.state, r.move, r.player).value), false)
      else if Repeats(g, from, r) then e == Ended(g, false)
      else if r.index > |g.records| then AsksFor(g, net, from, item, e)
      else if Oversized(rules, g, from, r) then e == Ended(g, true)
      else !e.threw && e.game.frozen && Untouched(g, e.game)
  {
    assert [] + [Buffered(from, CopyTurn(item))] == [Buffered(from, CopyTurn(item))];
  }

  /** While a log is awaited a move waits, or there is too much that waits and the game freezes. */
  lemma AcceptWaits(rules: Rules, g: Game, net: Network, from: Text, item: LiveTurn)
    requires |rules.players| > 0 && item.gameId == g.gameId && !g.frozen && !g.finished && g.requestId.Some?
    requires PrintableTurn(item)
    ensures var e, waiting := Accept(rules, g, net, from, item), g.buffered + [Buffered(from, CopyTurn(item))];
      match BufferedBytes(rules, waiting)
      case None => e.threw
      case Some(size) =>
        if size <= rules.maxBytes then e == Ended(g.(buffered := waiting), false)
        else !e.threw && e.game.frozen && Untouched(g, e.game)
  {
  }

  /** A move for another game, or for one that is over or frozen, changes nothing. */
  lemma AcceptIgnores(rules: Rules, g: Game, net: Network, from: Text, item: LiveTurn)
    requires |rules.players| > 0 && (item.gameId != g.gameId || g.frozen || g.finished)
    ensures Accept(rules, g, net, from, item) == Ended(g, false)
  {
  }
}
