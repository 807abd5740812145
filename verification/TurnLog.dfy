/** The hash-chained log of a turn game: what makes it valid, what it determines, and how it is
    cut into parts for the wire. */
module TurnLog {
  import opened Text
  import opened CanonicalJson
  import opened Pieces

  /** A JavaScript value: every object has each key once. */
  type Value = v: Json | IsValue(v) witness Null

  /** `copyJson`, for a value that can be printed. */
  function Copy(v: Value): (r: Value)
    ensures Copied(r)
  {
    NormalizeIsStable(v);
    Normalize(v)
  }

  /** Its own copy: what every stored move and state is. */
  predicate Copied(v: Json) {
    Normalize(v) == v
  }

  datatype TurnRecord = TurnRecord(index: int, move: Value, player: Text, hash: Text)

  /** The rules every replica of a game shares, with the JSON tools they use. `apply` is
      deterministic; `None` is a throw, here and in the tools. */
  datatype Rules = Rules(
    players: seq<Text>, initial: Value, apply: (Value, Value, Text) -> Option<Value>,
    hashJson: Json -> Option<Text>, bytes: Json -> Option<nat>, maxBytes: nat)

  predicate SameText(a: Json, b: Json) {
    CanonicalJson.CanonicalJson(a) == CanonicalJson.CanonicalJson(b)
  }

  /** `hashJson` hashes the canonical text, and no two texts share a hash. */
  ghost predicate CollisionFree(hashJson: Json -> Option<Text>) {
    && (forall v: Json {:trigger Printable(v)} :: hashJson(v).Some? <==> Printable(v))
    && (forall a: Json, b: Json {:trigger SameText(a, b)} ::
          Printable(a) && Printable(b) ==> (hashJson(a) == hashJson(b) <==> SameText(a, b)))
  }

  /** The UTF-8 length of the canonical text. */
  function CanonicalBytes(v: Json): Option<nat> {
    match CanonicalJson.CanonicalJson(v)
    case None => None
    case Some(text) => Some(ByteLength(text))
  }

  /** What creating a game checks, and what is assumed of the tools. */
  ghost predicate Playable(rules: Rules) {
    && |rules.players| > 0 && Printable(rules.initial) && CollisionFree(rules.hashJson)
    && forall v: Json {:trigger CanonicalBytes(v)} :: rules.bytes(v) == CanonicalBytes(v)
  }

  /** What the first record's hash refers back to: sixty-four zeros. */
  function ZeroHash(): Text {
    seq(64, i => ZERO)
  }

  /** What is hashed for a record. */
  function HashInput(previous: Text, index: int, player: Text, move: Json): Json {
    Arr([Str(previous), Num(index), Str(player), move])
  }

  /** `hashJson([previous, index, by, move])`. */
  function HashOf(rules: Rules, previous: Text, index: int, player: Text, move: Value): Option<Text> {
    rules.hashJson(HashInput(previous, index, player, move))
  }

  function LastHash(log: seq<TurnRecord>): Text {
    if |log| == 0 then ZeroHash() else log[|log| - 1].hash
  }

  function PlayerAt(rules: Rules, index: nat): Text
    requires |rules.players| > 0
  {
    rules.players[index % |rules.players|]
  }

  /** The record is the next one after the log: its index, its player and its hash. */
  predicate Next(rules: Rules, log: seq<TurnRecord>, r: TurnRecord)
    requires |rules.players| > 0
  {
    && r.index == |log| && r.player == PlayerAt(rules, |log|)
    && HashOf(rules, LastHash(log), r.index, r.player, r.move) == Some(r.hash)
  }

  predicate Chained(rules: Rules, log: seq<TurnRecord>)
    requires |rules.players| > 0
  {
    forall i :: 0 <= i < |log| ==> Next(rules, log[..i], log[i])
  }

  /** One application of the game's rules, on copies throughout. */
  function Applied(rules: Rules, state: Value, move: Value, player: Text): (r: Option<Value>)
    ensures r.Some? ==> Copied(r.value)
  {
    match rules.apply(Copy(state), Copy(move), player)
    case None => None
    case Some(next) => if Printable(next) then Some(Copy(next)) else None
  }

  /** The state a log determines; `None` if the rules reject a move of it. */
  function Folded(rules: Rules, log: seq<TurnRecord>): (r: Option<Value>)
    ensures r.Some? ==> Copied(r.value)
  {
    if |log| == 0 then Some(Copy(rules.initial))
    else
      var last := log[|log| - 1];
      match Folded(rules, log[..|log| - 1])
      case None => None
      case Some(state) => Applied(rules, state, last.move, last.player)
  }

  // ---- Validation ------------------------------------------------------------------------------

  /** `validate`: the folded state of a log that is a chain the rules accept. */
  function Validated(rules: Rules, log: seq<TurnRecord>): Option<Value>
    requires |rules.players| > 0
  {
    if Chained(rules, log) then Folded(rules, log) else None
  }

  lemma {:induction false} FoldedFails(rules: Rules, log: seq<TurnRecord>, k: nat)
    requires k <= |log| && Folded(rules, log[..k]).None?
    ensures Folded(rules, log).None?
    decreases |log| - k
  {
    if k < |log| {
      assert log[..k + 1][..k] == log[..k];
      FoldedFails(rules, log, k + 1);
    } else {
      assert log[..k] == log;
    }
  }

  /** The first `i` records are a chain that leads to this state and ends in this hash. */
  predicate ValidUpTo(rules: Rules, log: seq<TurnRecord>, i: nat, state: Value, previous: Text)
    requires |rules.players| > 0 && i <= |log|
  {
    && (forall j :: 0 <= j < i ==> Next(rules, log[..j], log[j]))
    && Folded(rules, log[..i]) == Some(state) && LastHash(log[..i]) == previous
  }

  lemma {:induction false} FoldedStep(rules: Rules, log: seq<TurnRecord>, i: nat, state: Value)
    requires i < |log| && Folded(rules, log[..i]) == Some(state)
    ensures Folded(rules, log[..i + 1]) == Applied(rules, state, log[i].move, log[i].player)
    ensures LastHash(log[..i + 1]) == log[i].hash
  {
    assert log[..i + 1][..i] == log[..i];
  }

  lemma OneMoreValid(rules: Rules, log: seq<TurnRecord>, i: nat, state: Value, previous: Text, next: Value)
    requires |rules.players| > 0 && i < |log| && ValidUpTo(rules, log, i, state, previous) && Next(rules, log[..i], log[i])
    requires Applied(rules, state, log[i].move, log[i].player) == Some(next)
    ensures ValidUpTo(rules, log, i + 1, next, log[i].hash)
  {
    FoldedStep(rules, log, i, state);
  }

  lemma {:induction false} OneMoreFails(rules: Rules, log: seq<TurnRecord>, i: nat, state: Value)
    requires i < |log| && Folded(rules, log[..i]) == Some(state)
    requires Applied(rules, state, log[i].move, log[i].player).None?
    ensures Folded(rules, log).None?
  {
    assert log[..i + 1][..i] == log[..i];
    FoldedFails(rules, log, i + 1);
  }

  method Validate(rules: Rules, log: seq<TurnRecord>) returns (r: Option<Value>)
    requires |rules.players| > 0
    ensures r == Validated(rules, log)
  {
    var rebuilt, previous := Copy(rules.initial), ZeroHash();
    for i := 0 to |log|
      invariant ValidUpTo(rules, log, i, rebuilt, previous)
    {
      var item := log[i];
      if item.index != i || item.player != rules.players[i % |rules.players|]
         || HashOf(rules, previous, i, item.player, item.move) != Some(item.hash) {
        assert !Next(rules, log[..i], log[i]);
        return None;
      }
      var applied := Applied(rules, rebuilt, item.move, item.player);
      if applied.None? {
        OneMoreFails(rules, log, i, rebuilt);
        return None;
      }
      OneMoreValid(rules, log, i, rebuilt, previous, applied.value);
      rebuilt, previous := applied.value, item.hash;
    }
    assert log[..|log|] == log;
    return Some(rebuilt);
  }

  lemma ChainedSnoc(rules: Rules, log: seq<TurnRecord>, r: TurnRecord)
    requires |rules.players| > 0 && Chained(rules, log) && Next(rules, log, r)
    ensures Chained(rules, log + [r])
  {
    forall i | 0 <= i < |log + [r]|
      ensures Next(rules, (log + [r])[..i], (log + [r])[i])
    {
      assert (log + [r])[..i] == if i < |log| then log[..i] else log;
    }
  }

  // ---- Agreement ------------------------------------------------------------------------------------

  /** Equal but for the key order inside the moves. */
  predicate SameRecord(a: TurnRecord, b: TurnRecord) {
    a.index == b.index && a.player == b.player && a.hash == b.hash && SameJson(a.move, b.move)
  }

  predicate SameUpTo(a: seq<TurnRecord>, b: seq<TurnRecord>, count: nat) {
    count <= |a| && count <= |b| && forall i :: 0 <= i < count ==> SameRecord(a[i], b[i])
  }

  /** One hash determines everything that went into it. */
  lemma {:induction false} HashDetermines(rules: Rules, p: Text, i: int, player: Text, move: Value, p': Text, i': int, player': Text, move': Value)
    requires Playable(rules)
    requires HashOf(rules, p, i, player, move).Some? && HashOf(rules, p, i, player, move) == HashOf(rules, p', i', player', move')
    ensures p == p' && i == i' && player == player' && SameJson(move, move')
  {
    var a, b := HashInput(p, i, player, move), HashInput(p', i', player', move');
    assert IsValue(a) && IsValue(b) && Printable(a) && Printable(b);
    assert SameText(a, b);
    CanonicalIffSame(a, b);
    var x, y := a.items, b.items;
    assert SameJson(x[0], y[0]) && SameJson(x[1], y[1]) && SameJson(x[2], y[2]) && SameJson(x[3], y[3]);
  }

  lemma SharedHashSharesRecord(rules: Rules, a: seq<TurnRecord>, b: seq<TurnRecord>, r: TurnRecord, r': TurnRecord)
    requires Playable(rules) && Next(rules, a, r) && Next(rules, b, r') && r.hash == r'.hash
    ensures SameRecord(r, r') && LastHash(a) == LastHash(b)
  {
    HashDetermines(rules, LastHash(a), r.index, r.player, r.move, LastHash(b), r'.index, r'.player, r'.move);
  }

  lemma SameUpToMore(a: seq<TurnRecord>, b: seq<TurnRecord>, k: nat)
    requires SameUpTo(a, b, k) && k < |a| && k < |b| && SameRecord(a[k], b[k])
    ensures SameUpTo(a, b, k + 1)
  {
  }

  /** Two valid logs that share a hash at `k` share every move up to it. */
  lemma {:induction false} SharedHashSharesLog(rules: Rules, a: seq<TurnRecord>, b: seq<TurnRecord>, k: nat)
    requires Playable(rules) && Chained(rules, a) && Chained(rules, b)
    requires k < |a| && k < |b| && a[k].hash == b[k].hash
    ensures SameUpTo(a, b, k + 1)
    decreases k
  {
    SharedHashSharesRecord(rules, a[..k], b[..k], a[k], b[k]);
    if k > 0 {
      SharedHashSharesLog(rules, a, b, k - 1);
    }
    SameUpToMore(a, b, k);
  }

  /** The same moves lead to the same state, whatever the key order inside them. */
  lemma {:induction false} SameMovesSameState(rules: Rules, a: seq<TurnRecord>, b: seq<TurnRecord>, count: nat)
    requires SameUpTo(a, b, count)
    ensures Folded(rules, a[..count]) == Folded(rules, b[..count])
    decreases count
  {
    if count > 0 {
      SameMovesSameState(rules, a, b, count - 1);
      assert a[..count][..count - 1] == a[..count - 1] && b[..count][..count - 1] == b[..count - 1];
      NormalizeDecidesSame(a[count - 1].move, b[count - 1].move);
    }
  }

  // ---- Parts ------------------------------------------------------------------------------------------

  const INDEX: Text := ['i' as int, 'n' as int, 'd' as int, 'e' as int, 'x' as int]
  const MOVE: Text := ['m' as int, 'o' as int, 'v' as int, 'e' as int]
  const BY: Text := ['b' as int, 'y' as int]
  const HASH: Text := ['h' as int, 'a' as int, 's' as int, 'h' as int]

  function RecordJson(r: TurnRecord): Json {
    Obj([Entry(INDEX, Num(r.index)), Entry(MOVE, r.move), Entry(BY, Str(r.player)), Entry(HASH, Str(r.hash))])
  }

  function RecordItems(records: seq<TurnRecord>): seq<Json> {
    if |records| == 0 then [] else [RecordJson(records[0])] + RecordItems(records[1..])
  }

  function RecordsJson(records: seq<TurnRecord>): Json {
    Arr(RecordItems(records))
  }

  function RecordBytes(rules: Rules, records: seq<TurnRecord>): Option<nat> {
    rules.bytes(RecordsJson(records))
  }

  /** The log can be printed in at most `limit` bytes. */
  predicate LogFits(rules: Rules, records: seq<TurnRecord>, limit: nat) {
    RecordBytes(rules, records).Some? && RecordBytes(rules, records).value <= limit
  }

  type Measure<!T> = seq<T> -> Option<nat>

  /** Together they can be printed in at most `limit` bytes. */
  predicate Fits<T>(bytes: Measure<T>, records: seq<T>, limit: nat) {
    bytes(records).Some? && bytes(records).value <= limit
  }

  predicate AllFit<T>(bytes: Measure<T>, parts: seq<seq<T>>, limit: nat) {
    forall k :: 0 <= k < |parts| ==> |parts[k]| > 0 && Fits(bytes, parts[k], limit)
  }

  /** No part had room for the first record of the next. */
  ghost predicate Filled<T>(bytes: Measure<T>, parts: seq<seq<T>>, limit: nat) {
    forall k, n :: 0 <= k && n == k + 1 && n < |parts| && |parts[n]| > 0 ==>
      !Fits(bytes, parts[k] + [parts[n][0]], limit)
  }

  /** A new part is begun only when the record had no room in the last one. */
  lemma FilledSnoc<T>(bytes: Measure<T>, parts: seq<seq<T>>, part: seq<T>, record: T, limit: nat)
    requires Filled(bytes, parts + [part], limit) && !Fits(bytes, part + [record], limit)
    ensures Filled(bytes, parts + [part] + [[record]], limit)
  {
    var wide := parts + [part] + [[record]];
    forall k, n | 0 <= k && n == k + 1 && n < |wide| && |wide[n]| > 0
      ensures !Fits(bytes, wide[k] + [wide[n][0]], limit)
    {
      if n <= |parts| {
        assert wide[k] == (parts + [part])[k] && wide[n] == (parts + [part])[n];
      }
    }
  }

  lemma FilledGrows<T>(bytes: Measure<T>, parts: seq<seq<T>>, part: seq<T>, record: T, limit: nat)
    requires Filled(bytes, parts + [part], limit) && (|part| > 0 || |parts| == 0)
    ensures Filled(bytes, parts + [part + [record]], limit)
  {
    var narrow, wide := parts + [part], parts + [part + [record]];
    forall k, n | 0 <= k && n == k + 1 && n < |wide| && |wide[n]| > 0
      ensures !Fits(bytes, wide[k] + [wide[n][0]], limit)
    {
      assert wide[k] == narrow[k] && wide[n][0] == narrow[n][0];
    }
  }

  /** The first `i` records, packed into full parts and an open one. */
  ghost predicate Packed<T>(bytes: Measure<T>, records: seq<T>, i: nat, parts: seq<seq<T>>, part: seq<T>, limit: nat) {
    && i <= |records| && Flatten(parts) + part == records[..i]
    && (|part| == 0 <==> i == 0) && (|part| == 0 ==> |parts| == 0)
    && AllFit(bytes, parts, limit) && (|part| > 0 ==> Fits(bytes, part, limit))
    && Filled(bytes, parts + [part], limit)
  }

  lemma PackMore<T>(bytes: Measure<T>, records: seq<T>, i: nat, parts: seq<seq<T>>, part: seq<T>, limit: nat)
    requires i < |records| && Packed(bytes, records, i, parts, part, limit)
    requires Fits(bytes, part + [records[i]], limit)
    ensures Packed(bytes, records, i + 1, parts, part + [records[i]], limit)
  {
    FilledGrows(bytes, parts, part, records[i], limit);
    assert Flatten(parts) + (part + [records[i]]) == records[..i] + [records[i]] == records[..i + 1];
  }

  lemma PackNew<T>(bytes: Measure<T>, records: seq<T>, i: nat, parts: seq<seq<T>>, part: seq<T>, limit: nat)
    requires i < |records| && Packed(bytes, records, i, parts, part, limit)
    requires |part| > 0 && !Fits(bytes, part + [records[i]], limit) && Fits(bytes, [records[i]], limit)
    ensures Packed(bytes, records, i + 1, parts + [part], [records[i]], limit)
  {
    FilledSnoc(bytes, parts, part, records[i], limit);
    FlattenSnoc(parts, part);
    assert records[..i] + [records[i]] == records[..i + 1];
  }

  lemma {:induction false} PackLast<T>(bytes: Measure<T>, records: seq<T>, parts: seq<seq<T>>, part: seq<T>, limit: nat)
    requires Packed(bytes, records, |records|, parts, part, limit) && |part| > 0
    ensures Flatten(parts + [part]) == records && AllFit(bytes, parts + [part], limit)
    ensures Filled(bytes, parts + [part], limit)
  {
    FlattenSnoc(parts, part);
    assert records[..|records|] == records;
  }

  /** `chunks`: it throws exactly if some record is too large by itself. Otherwise the parts are
      not empty, keep within the limit, are as full as they can be, and make up the log. */
  method Chunks<T>(bytes: Measure<T>, records: seq<T>, limit: nat) returns (r: Option<seq<seq<T>>>)
    ensures r.None? <==> exists i :: 0 <= i < |records| && !Fits(bytes, [records[i]], limit)
    ensures r.Some? ==>
      && Flatten(r.value) == records && AllFit(bytes, r.value, limit) && Filled(bytes, r.value, limit)
  {
    var result: seq<seq<T>>, part: seq<T> := [], [];
    for i := 0 to |records|
      invariant Packed(bytes, records, i, result, part, limit)
      invariant forall j :: 0 <= j < i ==> Fits(bytes, [records[j]], limit)
    {
      var record := records[i];
      if !Fits(bytes, [record], limit) {
        return None;
      }
      assert |part| == 0 ==> part + [record] == [record];
      if !Fits(bytes, part + [record], limit) {
        PackNew(bytes, records, i, result, part, limit);
        result := result + [part];
        part := [];
        assert part + [record] == [record];
      } else {
        PackMore(bytes, records, i, result, part, limit);
      }
      part := part + [record];
    }
    assert records[..|records|] == records;
    if |part| > 0 {
      PackLast(bytes, records, result, part, limit);
      result := result + [part];
    }
    return Some(result);
  }
}
