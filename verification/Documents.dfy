/** Read-modify-write of one versioned document by any number of concurrent callers, over stores
    whose conditional write compares content hashes (memory, Redis) or fresh revisions (DynamoDB).
    A conditional write may be sent again when no answer came, and every copy of it that was sent
    may be carried out at any later moment. */
module Documents {
  import opened Text
  import opened CanonicalJson

  datatype Document = Document(version: nat, content: Json)

  /** A revision token: a hash of the stored bytes, which no two documents share, or a fresh id. */
  datatype Token = OfContent(document: Document) | Revision(id: nat)

  datatype Backend = Memory | Redis | Dynamo

  /** A stored row; it may be past its deadline and still be there. Zero is no deadline. */
  datatype Row = Row(document: Document, token: Token, deadline: int)

  /** The row of the document's key, and for which document each fresh revision was made. Times are
      in milliseconds, DynamoDB deadlines in seconds. */
  datatype Store = Store(backend: Backend, row: Option<Row>, now: nat, minted: seq<Document>)

  // ---- The store ---------------------------------------------------------------------------------

  /** Whether a row still counts, as each backend decides it. */
  predicate IsLive(backend: Backend, row: Row, now: nat) {
    match backend
    case Memory => !(row.deadline > 0 && row.deadline < now)
    case Redis => row.deadline == 0 || now < row.deadline
    case Dynamo => row.deadline == 0 || row.deadline >= now / 1000
  }

  function Live(s: Store): Option<Row> {
    if s.row.Some? && IsLive(s.backend, s.row.value, s.now) then s.row else None
  }

  function LiveDocument(s: Store): Option<Document> {
    match Live(s) case None => None case Some(row) => Some(row.document)
  }

  function LiveToken(s: Store): Option<Token> {
    match Live(s) case None => None case Some(row) => Some(row.token)
  }

  /** `ttl` zero stands for none given. */
  function Deadline(backend: Backend, now: nat, ttl: nat): nat {
    if ttl == 0 then 0
    else
      match backend
      case Memory => now + ttl
      case Redis => now + ttl
      case Dynamo => (now + ttl + 999) / 1000
  }

  /** The token a document is stored under: its hash, or a revision made for it. */
  function Mark(s: Store, document: Document): Token {
    if s.backend.Dynamo? then Revision(|s.minted|) else OfContent(document)
  }

  function Minted(s: Store, document: Document): Store {
    if s.backend.Dynamo? then s.(minted := s.minted + [document]) else s
  }

  function Put(s: Store, mark: Token, document: Document, ttl: nat): Store {
    s.(row := Some(Row(document, mark, Deadline(s.backend, s.now, ttl))))
  }

  function Written(s: Store, document: Document, ttl: nat): Store {
    Put(Minted(s, document), Mark(s, document), document, ttl)
  }

  function Deleted(s: Store): Store {
    s.(row := None)
  }

  /** The condition each backend evaluates, in its own terms. */
  predicate Admits(s: Store, expected: Option<Token>) {
    match s.backend
    case Memory => LiveToken(s) == expected
    case Redis =>
      (match expected
       case None => Live(s).None?
       case Some(token) => Live(s).Some? && Live(s).value.token == token)
    case Dynamo =>
      (match expected
       case None => s.row.None? || (s.row.value.deadline != 0 && s.row.value.deadline < s.now / 1000)
       case Some(token) =>
         s.row.Some? && s.row.value.token == token
         && (s.row.value.deadline == 0 || s.row.value.deadline >= s.now / 1000))
  }

  function CompareAndSet(s: Store, expected: Option<Token>, mark: Token, document: Document, ttl: nat): (Store, bool) {
    if Admits(s, expected) then (Put(s, mark, document, ttl), true) else (s, false)
  }

  /** All three conditions say the same: the live row, if any, carries the expected token. Rows
      that expired and were not swept are as good as gone, for either answer. */
  lemma AdmitsIffLiveToken(s: Store, expected: Option<Token>)
    ensures Admits(s, expected) <==> LiveToken(s) == expected
  {
  }

  // ---- Editing ---------------------------------------------------------------------------------------

  /** What JavaScript takes for true. */
  predicate Truthy(v: Json) {
    match v
    case Null => false
    case Bool(b) => b
    case Num(n) => n != 0
    case Str(s) => |s| > 0
    case _ => true
  }

  /** `ensureDocument`. */
  function Ensure(document: Option<Document>, empty: Json): Document {
    match document
    case None => Document(0, empty)
    case Some(d) => Document(d.version, if Truthy(d.content) then d.content else empty)
  }

  datatype Edit = Edit(empty: Json, modifier: Json -> Json, maxRetries: int, ttl: nat)

  /** What an edit makes of the document it finds. */
  function Edited(e: Edit, found: Option<Document>): Document {
    var d := Ensure(found, e.empty);
    Document(d.version + 1, e.modifier(d.content))
  }

  /** A conditional write as it is sent: whose it is and in which attempt, what it was built from,
      and what it asks of the store. */
  datatype Item = Item(
    id: nat, attempt: nat, read: Option<Document>, expected: Option<Token>, mark: Token, document: Document, ttl: nat)

  /** Where a call of `editDocument` stands. */
  datatype Phase =
    | Reading
    | Holding(item: Item)
    | Succeeded(document: Document)
    | GaveUp
    | Threw

  datatype Call = Call(edit: Edit, phase: Phase, attempt: nat)

  function ItemOf(s: Store, id: nat, c: Call): Item {
    var document := Edited(c.edit, LiveDocument(s));
    Item(id, c.attempt, LiveDocument(s), LiveToken(s), Mark(s, document), document, c.edit.ttl)
  }

  /** An answer to the write that the call holds. */
  function Told(c: Call, written: bool): Call
    requires c.phase.Holding?
  {
    if written then c.(phase := Succeeded(c.phase.item.document))
    else if c.attempt >= c.edit.maxRetries then c.(phase := GaveUp)
    else c.(phase := Reading, attempt := c.attempt + 1)
  }

  // ---- Runs --------------------------------------------------------------------------------------------

  /** One change of what a reader sees. */
  datatype Change =
    | ByEdit(id: nat, before: Option<Document>, after: Document)
    | ByOther(before: Option<Document>, left: Option<Document>)

  function BeforeOf(c: Change): Option<Document> {
    c.before
  }

  function AfterOf(c: Change): Option<Document> {
    match c case ByEdit(_, _, after) => Some(after) case ByOther(_, left) => left
  }

  /** `wire` holds the conditional writes on their way to the store. */
  datatype World = World(store: Store, calls: map<nat, Call>, wire: seq<Item>, history: seq<Change>)

  /** Everything that can happen between two steps of a call: a write sent once or again, a copy
      carried out whose answer reaches its call or not, a call that throws, others' calls, writes
      without a condition, truncation, time passing, expired rows being swept. */
  datatype Event =
    | Started(id: nat, edit: Edit)
    | ReadDone(id: nat)
    | WriteSent(id: nat)
    | WriteCarried(copy: nat, reached: bool)
    | CallThrew(id: nat)
    | Overwritten(document: Document, ttl: nat)
    | Truncated
    | TimePassed(now: nat)
    | Swept

  predicate Waits(w: World, item: Item) {
    item.id in w.calls && w.calls[item.id].phase == Holding(item)
  }

  predicate Enabled(w: World, e: Event) {
    match e
    case Started(id, _) => id !in w.calls
    case ReadDone(id) => id in w.calls && w.calls[id].phase.Reading?
    case WriteSent(id) => id in w.calls && w.calls[id].phase.Holding?
    case WriteCarried(copy, reached) => copy < |w.wire| && (reached ==> Waits(w, w.wire[copy]))
    case CallThrew(id) => id in w.calls && (w.calls[id].phase.Reading? || w.calls[id].phase.Holding?)
    case TimePassed(now) => w.store.now <= now
    case Swept => Live(w.store).None?
    case _ => true
  }

  function Noted(w: World, store: Store): World {
    var before, after := LiveDocument(w.store), LiveDocument(store);
    w.(store := store, history := if before == after then w.history else w.history + [ByOther(before, after)])
  }

  /** A copy of a write reaches the store. */
  function Carry(w: World, copy: nat, reached: bool): World
    requires copy < |w.wire|
    requires reached ==> w.wire[copy].id in w.calls && w.calls[w.wire[copy].id].phase.Holding?
  {
    var item := w.wire[copy];
    var (store, written) := CompareAndSet(w.store, item.expected, item.mark, item.document, item.ttl);
    World(store,
          if reached then w.calls[item.id := Told(w.calls[item.id], written)] else w.calls,
          w.wire[..copy] + w.wire[copy + 1..],
          if written then w.history + [ByEdit(item.id, LiveDocument(w.store), item.document)] else w.history)
  }

  function Happen(w: World, e: Event): World
    requires Enabled(w, e)
  {
    match e
    case Started(id, edit) => w.(calls := w.calls[id := Call(edit, Reading, 0)])
    case ReadDone(id) =>
      var item := ItemOf(w.store, id, w.calls[id]);
      w.(store := Minted(w.store, item.document), calls := w.calls[id := w.calls[id].(phase := Holding(item))])
    case WriteSent(id) => w.(wire := w.wire + [w.calls[id].phase.item])
    case WriteCarried(copy, reached) => Carry(w, copy, reached)
    case CallThrew(id) => w.(calls := w.calls[id := w.calls[id].(phase := Threw)])
    case Overwritten(document, ttl) => Noted(w, Written(w.store, document, ttl))
    case Truncated => Noted(w, Deleted(w.store))
    case TimePassed(now) => Noted(w, w.store.(now := now))
    case Swept => Noted(w, Deleted(w.store))
  }

  // ---- Invariant -----------------------------------------------------------------------------------------

  /** A token speaks of the document it was made for. */
  predicate Speaks(s: Store, token: Token, document: Document) {
    match token
    case OfContent(hashed) => hashed == document
    case Revision(id) => id < |s.minted| && s.minted[id] == document
  }

  predicate RowFine(s: Store) {
    s.row.Some? ==> Speaks(s, s.row.value.token, s.row.value.document)
  }

  /** The write was built from a document that was live, by its call's modifier. */
  predicate ItemFine(s: Store, calls: map<nat, Call>, item: Item) {
    && item.id in calls && item.document == Edited(calls[item.id].edit, item.read)
    && (item.expected.None? <==> item.read.None?)
    && (item.expected.Some? ==> Speaks(s, item.expected.value, item.read.value))
    && Speaks(s, item.mark, item.document)
  }

  function Bound(e: Edit): nat {
    if e.maxRetries > 0 then e.maxRetries else 0
  }

  predicate CallFine(s: Store, calls: map<nat, Call>, id: nat)
    requires id in calls
  {
    calls[id].attempt <= Bound(calls[id].edit)
    && (calls[id].phase.GaveUp? ==> calls[id].attempt == Bound(calls[id].edit))
    && (calls[id].phase.Holding? ==> calls[id].phase.item.id == id && ItemFine(s, calls, calls[id].phase.item))
  }

  /** Each change starts from what the one before it left. */
  predicate Linked(history: seq<Change>, start: Option<Document>, end: Option<Document>) {
    if |history| == 0 then start == end
    else AfterOf(history[|history| - 1]) == end && Linked(history[..|history| - 1], start, BeforeOf(history[|history| - 1]))
  }

  predicate EditRight(calls: map<nat, Call>, c: Change) {
    c.ByEdit? ==> c.id in calls && c.after == Edited(calls[c.id].edit, c.before)
  }

  /** Every edit in the history made of the document it found what its modifier says. */
  predicate EditsRight(w: World) {
    forall i :: 0 <= i < |w.history| ==> EditRight(w.calls, w.history[i])
  }

  predicate Inv(w: World, start: Option<Document>) {
    && RowFine(w.store) && (forall id <- w.calls :: CallFine(w.store, w.calls, id))
    && (forall i :: 0 <= i < |w.wire| ==> ItemFine(w.store, w.calls, w.wire[i]))
    && Linked(w.history, start, LiveDocument(w.store)) && EditsRight(w)
  }

  // ---- Steps -----------------------------------------------------------------------------------------------

  lemma WrittenIsLive(s: Store, mark: Token, document: Document, ttl: nat)
    ensures LiveDocument(Put(s, mark, document, ttl)) == Some(document)
  {
  }

  /** How long a document lives that nobody touches, at every later moment: for ever if no time to
      live was given, and otherwise up to that time and for less than two seconds more. */
  lemma LivesFor(s: Store, mark: Token, document: Document, ttl: nat, later: nat)
    requires s.now <= later
    ensures var live := LiveDocument(Put(s, mark, document, ttl).(now := later)) == Some(document);
      if ttl == 0 then live
      else
        match s.backend
        case Memory => live <==> later <= s.now + ttl
        case Redis => live <==> later < s.now + ttl
        case Dynamo => (later <= s.now + ttl ==> live) && (live ==> later < s.now + ttl + 2000)
  {
  }

  /** The heart: a conditional write that is admitted finds the very document its caller had read,
      also after it was changed and changed back, and however late it is carried out. */
  lemma AdmittedReadIsLive(s: Store, calls: map<nat, Call>, item: Item)
    requires RowFine(s) && ItemFine(s, calls, item) && Admits(s, item.expected)
    ensures LiveDocument(s) == item.read
  {
    AdmitsIffLiveToken(s, item.expected);
  }

  lemma {:induction false} LinkedMore(history: seq<Change>, c: Change, start: Option<Document>)
    requires Linked(history, start, BeforeOf(c))
    ensures Linked(history + [c], start, AfterOf(c))
  {
    assert (history + [c])[..|history|] == history;
  }

  /** Revisions are only added, and no call's edit changes. */
  ghost predicate Onward(s: Store, s': Store, calls: map<nat, Call>, calls': map<nat, Call>) {
    && s.minted <= s'.minted && forall id <- calls :: id in calls' && calls'[id].edit == calls[id].edit
  }

  lemma StillFine(s: Store, s': Store, calls: map<nat, Call>, calls': map<nat, Call>, item: Item)
    requires Onward(s, s', calls, calls') && ItemFine(s, calls, item)
    ensures ItemFine(s', calls', item)
  {
  }

  lemma StillRight(w: World, calls': map<nat, Call>)
    requires EditsRight(w) && forall id <- w.calls :: id in calls' && calls'[id].edit == w.calls[id].edit
    ensures forall i :: 0 <= i < |w.history| ==> EditRight(calls', w.history[i])
  {
    forall i | 0 <= i < |w.history|
      ensures EditRight(calls', w.history[i])
    {
      assert EditRight(w.calls, w.history[i]);
    }
  }

  /** A store changed by others. */
  lemma NotedKeeps(w: World, store: Store, start: Option<Document>)
    requires Inv(w, start) && w.store.minted <= store.minted && RowFine(store)
    ensures Inv(Noted(w, store), start)
  {
    LinkedMore(w.history, ByOther(LiveDocument(w.store), LiveDocument(store)), start);
    forall id | id in w.calls
      ensures CallFine(store, w.calls, id)
    {
      assert CallFine(w.store, w.calls, id);
    }
    forall i | 0 <= i < |w.wire|
      ensures ItemFine(store, w.calls, w.wire[i])
    {
      StillFine(w.store, store, w.calls, w.calls, w.wire[i]);
    }
  }

  /** A call that moves on, with nothing changed on the store but a revision made for it. */
  lemma CallMoves(w: World, w': World, id: nat, start: Option<Document>)
    requires Inv(w, start) && id in w'.calls && w'.calls == w.calls[id := w'.calls[id]] && w'.wire == w.wire && w'.history == w.history
    requires id in w.calls ==> w'.calls[id].edit == w.calls[id].edit
    requires w'.store == w.store.(minted := w'.store.minted) && w.store.minted <= w'.store.minted
    requires CallFine(w'.store, w'.calls, id)
    ensures Inv(w', start)
  {
    assert Onward(w.store, w'.store, w.calls, w'.calls);
    forall other | other in w'.calls
      ensures CallFine(w'.store, w'.calls, other)
    {
      assert other != id ==> CallFine(w.store, w.calls, other);
    }
    forall i | 0 <= i < |w.wire|
      ensures ItemFine(w'.store, w'.calls, w.wire[i])
    {
      StillFine(w.store, w'.store, w.calls, w'.calls, w.wire[i]);
    }
    StillRight(w, w'.calls);
  }

  lemma ReadKeeps(w: World, id: nat, start: Option<Document>)
    requires Inv(w, start) && Enabled(w, ReadDone(id))
    ensures Inv(Happen(w, ReadDone(id)), start)
  {
    assert CallFine(w.store, w.calls, id);
    CallMoves(w, Happen(w, ReadDone(id)), id, start);
  }

  /** The copies still on their way, once one has arrived. */
  lemma RestFine(w: World, w': World, copy: nat)
    requires copy < |w.wire| && w'.wire == w.wire[..copy] + w.wire[copy + 1..]
    requires forall i :: 0 <= i < |w.wire| ==> ItemFine(w.store, w.calls, w.wire[i])
    requires Onward(w.store, w'.store, w.calls, w'.calls)
    ensures forall i :: 0 <= i < |w'.wire| ==> ItemFine(w'.store, w'.calls, w'.wire[i])
  {
    forall i | 0 <= i < |w'.wire|
      ensures ItemFine(w'.store, w'.calls, w'.wire[i])
    {
      StillFine(w.store, w'.store, w.calls, w'.calls, w.wire[if i < copy then i else i + 1]);
    }
  }

  lemma CarryOnward(w: World, copy: nat, reached: bool, start: Option<Document>)
    requires Inv(w, start) && Enabled(w, WriteCarried(copy, reached))
    ensures var w' := Carry(w, copy, reached);
      Onward(w.store, w'.store, w.calls, w'.calls) && RowFine(w'.store)
  {
    hide Edited, Deadline, IsLive, Linked;
    assert ItemFine(w.store, w.calls, w.wire[copy]);
  }

  /** What a copy leaves to the calls: each still waits for its own write. */
  lemma CarryCallsFine(w: World, copy: nat, reached: bool, start: Option<Document>)
    requires Inv(w, start) && Enabled(w, WriteCarried(copy, reached))
    ensures var w' := Carry(w, copy, reached);
      forall id <- w'.calls :: CallFine(w'.store, w'.calls, id)
  {
    hide CompareAndSet;
    var w' := Carry(w, copy, reached);
    CarryOnward(w, copy, reached, start);
    forall id | id in w'.calls
      ensures CallFine(w'.store, w'.calls, id)
    {
      assert CallFine(w.store, w.calls, id);
    }
  }

  /** What a copy adds to the history, if anything, starts from what was live. */
  lemma {:induction false} CarryLinks(w: World, copy: nat, reached: bool, start: Option<Document>)
    requires Inv(w, start) && Enabled(w, WriteCarried(copy, reached))
    ensures var w' := Carry(w, copy, reached);
      Linked(w'.history, start, LiveDocument(w'.store)) && EditsRight(w')
  {
    hide Edited, Deadline, IsLive, LiveDocument, Told;
    var item, w' := w.wire[copy], Carry(w, copy, reached);
    CarryOnward(w, copy, reached, start);
    assert ItemFine(w.store, w.calls, item);
    if Admits(w.store, item.expected) {
      AdmittedReadIsLive(w.store, w.calls, item);
      WrittenIsLive(w.store, item.mark, item.document, item.ttl);
      LinkedMore(w.history, ByEdit(item.id, LiveDocument(w.store), item.document), start);
    }
    StillRight(w, w'.calls);
  }

  lemma CarryKeeps(w: World, copy: nat, reached: bool, start: Option<Document>)
    requires Inv(w, start) && Enabled(w, WriteCarried(copy, reached))
    ensures Inv(Carry(w, copy, reached), start)
  {
    hide CompareAndSet, ItemFine, CallFine, Linked;
    CarryOnward(w, copy, reached, start);
    CarryCallsFine(w, copy, reached, start);
    CarryLinks(w, copy, reached, start);
    RestFine(w, Carry(w, copy, reached), copy);
  }

  /** A copy that is admitted maps the live document to what its call's modifier makes of it; one that
      is not changes nothing. A call that hears of it is told which. */
  lemma CarriedIsEdit(w: World, copy: nat, reached: bool, start: Option<Document>)
    requires Inv(w, start) && Enabled(w, WriteCarried(copy, reached))
    ensures var item, w' := w.wire[copy], Carry(w, copy, reached);
      && (if LiveToken(w.store) == item.expected then
            LiveDocument(w'.store) == Some(Edited(w.calls[item.id].edit, LiveDocument(w.store)))
          else w'.store == w.store)
      && (reached ==> (HasSucceeded(w', item.id) <==> LiveToken(w.store) == item.expected))
  {
    var item := w.wire[copy];
    assert ItemFine(w.store, w.calls, item);
    AdmitsIffLiveToken(w.store, item.expected);
    if Admits(w.store, item.expected) {
      AdmittedReadIsLive(w.store, w.calls, item);
      WrittenIsLive(w.store, item.mark, item.document, item.ttl);
    }
  }

  lemma HappenKeeps(w: World, e: Event, start: Option<Document>)
    requires Inv(w, start) && Enabled(w, e)
    ensures Inv(Happen(w, e), start)
  {
    match e
    case Started(id, _) => CallMoves(w, Happen(w, e), id, start);
    case ReadDone(id) => ReadKeeps(w, id, start);
    case WriteSent(id) => assert CallFine(w.store, w.calls, id);
    case WriteCarried(copy, reached) => CarryKeeps(w, copy, reached, start);
    case CallThrew(id) =>
      assert CallFine(w.store, w.calls, id);
      CallMoves(w, Happen(w, e), id, start);
    case Overwritten(document, ttl) => NotedKeeps(w, Written(w.store, document, ttl), start);
    case Truncated => NotedKeeps(w, Deleted(w.store), start);
    case TimePassed(now) => NotedKeeps(w, w.store.(now := now), start);
    case Swept => NotedKeeps(w, Deleted(w.store), start);
  }

  // ---- Over every run ---------------------------------------------------------------------------------------

  predicate Possible(w: World, events: seq<Event>)
    decreases |events|
  {
    |events| == 0 || (Enabled(w, events[0]) && Possible(Happen(w, events[0]), events[1..]))
  }

  function Run(w: World, events: seq<Event>): World
    requires Possible(w, events)
    decreases |events|
  {
    if |events| == 0 then w else Run(Happen(w, events[0]), events[1..])
  }

  lemma {:induction false} RunKeeps(w: World, events: seq<Event>, start: Option<Document>)
    requires Inv(w, start) && Possible(w, events)
    ensures Inv(Run(w, events), start)
    decreases |events|
  {
    if |events| > 0 {
      HappenKeeps(w, events[0], start);
      RunKeeps(Happen(w, events[0]), events[1..], start);
    }
  }

  function NewWorld(store: Store): World {
    World(store, map[], [], [])
  }

  /** However many calls ran against each other, whatever came between, and however often and late
      their writes were carried out: the changes form one history from the first document to the
      live one, and each edit in it made of the document before it what its modifier says. No call
      tried more often than its retries allow, and none gave up before. */
  lemma {:induction false} SerialHistory(store: Store, events: seq<Event>, id: nat)
    requires RowFine(store) && Possible(NewWorld(store), events)
    ensures var w := Run(NewWorld(store), events);
      && Linked(w.history, LiveDocument(store), LiveDocument(w.store)) && EditsRight(w)
      && (id in w.calls ==> w.calls[id].attempt <= Max(w.calls[id].edit.maxRetries, 0))
      && (id in w.calls && w.calls[id].phase.GaveUp? ==> w.calls[id].attempt == Max(w.calls[id].edit.maxRetries, 0))
  {
    RunKeeps(NewWorld(store), events, LiveDocument(store));
    var w := Run(NewWorld(store), events);
    assert id in w.calls ==> CallFine(w.store, w.calls, id);
  }

  /** A call that nobody comes between succeeds at once, with what its modifier makes of the live
      document, or of the empty one as its first version; and that is what is live from then on. */
  lemma {:induction false} UndisturbedSucceeds(w: World, id: nat, edit: Edit)
    requires id !in w.calls
    ensures var found := LiveDocument(w.store);
      var made := Document((if found.None? then 0 else found.value.version) + 1,
                           edit.modifier(if found.Some? && Truthy(found.value.content) then found.value.content else edit.empty));
      var run := [Started(id, edit)] + ([ReadDone(id)] + ([WriteSent(id)] + ([WriteCarried(|w.wire|, true)] + [])));
      && Possible(w, run) && Run(w, run).calls == w.calls[id := Call(edit, Succeeded(made), 0)] && Run(w, run).wire == w.wire
      && Run(w, run).store == Put(Minted(w.store, made), Mark(w.store, made), made, edit.ttl)
      && Run(w, run).history == w.history + [ByEdit(id, found, made)]
  {
    var started := Happen(w, Started(id, edit));
    var read := Happen(started, ReadDone(id));
    var sent := Happen(read, WriteSent(id));
    var item := ItemOf(w.store, id, started.calls[id]);
    assert sent.wire[|w.wire|] == item && Waits(sent, item) && Admits(sent.store, item.expected);
    assert sent.wire[..|w.wire|] + sent.wire[|w.wire| + 1..] == w.wire;
    assert Enabled(sent, WriteCarried(|w.wire|, true));
    hide Happen, Enabled;
    Began(sent, WriteCarried(|w.wire|, true), []);
    Began(read, WriteSent(id), [WriteCarried(|w.wire|, true)] + []);
    Began(started, ReadDone(id), [WriteSent(id)] + ([WriteCarried(|w.wire|, true)] + []));
    Began(w, Started(id, edit), [ReadDone(id)] + ([WriteSent(id)] + ([WriteCarried(|w.wire|, true)] + [])));
  }

  // ---- Exactly once -----------------------------------------------------------------------------------------

  /** How often a call's edit appears. */
  function Times(history: seq<Change>, id: nat): nat {
    if |history| == 0 then 0
    else
      var last := history[|history| - 1];
      Times(history[..|history| - 1], id) + (if last.ByEdit? && last.id == id then 1 else 0)
  }

  lemma {:induction false} OneMoreTime(history: seq<Change>, c: Change, id: nat)
    ensures Times(history + [c], id) == Times(history, id) + if c.ByEdit? && c.id == id then 1 else 0
  {
    assert (history + [c])[..|history|] == history;
  }

  predicate HasSucceeded(w: World, id: nat) {
    id in w.calls && w.calls[id].phase.Succeeded?
  }

  /** How often the call took effect without being told. */
  function Untold(w: World, id: nat): int {
    Times(w.history, id) - if HasSucceeded(w, id) then 1 else 0
  }

  /** A call took effect once if it succeeded, and never otherwise. */
  predicate TookEffect(w: World, id: nat) {
    Times(w.history, id) == if HasSucceeded(w, id) then 1 else 0
  }

  /** A write of this call is carried out and admitted, and the call does not hear of it. */
  predicate AnswerLost(w: World, e: Event, id: nat)
    requires Enabled(w, e)
  {
    e.WriteCarried? && w.wire[e.copy].id == id && Admits(w.store, w.wire[e.copy].expected) && !e.reached
  }

  predicate AnswersReach(w: World, events: seq<Event>, id: nat)
    requires Possible(w, events)
    decreases |events|
  {
    |events| == 0 || (!AnswerLost(w, events[0], id) && AnswersReach(Happen(w, events[0]), events[1..], id))
  }

  lemma {:induction false} UntoldStep(w: World, e: Event, id: nat)
    requires Enabled(w, e)
    ensures Untold(Happen(w, e), id) == Untold(w, id) + if AnswerLost(w, e, id) then 1 else 0
  {
    hide ItemOf, Written, Deleted, Minted, LiveDocument;
    var w' := Happen(w, e);
    if |w'.history| > |w.history| {
      OneMoreTime(w.history, w'.history[|w.history|], id);
    }
  }

  lemma {:induction false} UntoldRun(w: World, events: seq<Event>, id: nat)
    requires Possible(w, events)
    ensures Untold(Run(w, events), id) >= Untold(w, id)
    ensures Untold(Run(w, events), id) == Untold(w, id) <==> AnswersReach(w, events, id)
    decreases |events|
  {
    if |events| > 0 {
      UntoldStep(w, events[0], id);
      UntoldRun(Happen(w, events[0]), events[1..], id);
    }
  }

  /** A call took effect exactly once if it succeeded, and never if it gave up or threw, if and only
      if no write of its was carried out without the call hearing of it. */
  lemma {:induction false} ExactlyOnceIff(store: Store, events: seq<Event>, id: nat)
    requires Possible(NewWorld(store), events)
    ensures TookEffect(Run(NewWorld(store), events), id) <==> AnswersReach(NewWorld(store), events, id)
  {
    UntoldRun(NewWorld(store), events, id);
  }

  function VersionOf(document: Option<Document>): nat {
    match document case None => 0 case Some(d) => d.version
  }

  lemma {:induction false} Began(w: World, e: Event, events: seq<Event>)
    requires Enabled(w, e) && Possible(Happen(w, e), events)
    ensures Possible(w, [e] + events) && Run(w, [e] + events) == Run(Happen(w, e), events)
  {
    assert ([e] + events)[1..] == events;
  }

  // A counter on Redis, and one call that counts it up.

  function CountUp(): Edit {
    Edit(Num(0), (v: Json) => if v.Num? then Num(v.n + 1) else v, 3, 1000)
  }

  const ONE: Document := Document(1, Num(1))
  const TWO: Document := Document(2, Num(2))
  const MISSING: Store := Store(Redis, None, 0, [])

  function Counter(document: Document): Store {
    Store(Redis, Some(Row(document, OfContent(document), 1000)), 0, [])
  }

  function Counting(store: Store, phase: Phase, attempt: nat, wire: seq<Item>, history: seq<Change>): World {
    World(store, map[0 := Call(CountUp(), phase, attempt)], wire, history)
  }

  /** From the moment the first write was carried out twice: the call was told that it lost. */
  lemma {:induction false} CountsAgain(history: seq<Change>)
    ensures var w, run := Counting(Counter(ONE), Reading, 1, [], history),
                          [ReadDone(0)] + ([WriteSent(0)] + ([WriteCarried(0, true)] + []));
      Possible(w, run)
      && Run(w, run) == Counting(Counter(TWO), Succeeded(TWO), 1, [], history + [ByEdit(0, Some(ONE), TWO)])
  {
    var item := Item(0, 1, Some(ONE), Some(OfContent(ONE)), OfContent(TWO), TWO, 1000);
    var read := Counting(Counter(ONE), Holding(item), 1, [], history);
    var sent := Counting(Counter(ONE), Holding(item), 1, [item], history);
    assert [] + [item] == [item] && [item][..0] + [item][1..] == [];
    assert Happen(Counting(Counter(ONE), Reading, 1, [], history), ReadDone(0)) == read;
    assert Happen(read, WriteSent(0)) == sent;
    Began(sent, WriteCarried(0, true), []);
    Began(read, WriteSent(0), [WriteCarried(0, true)] + []);
    Began(Counting(Counter(ONE), Reading, 1, [], history), ReadDone(0), [WriteSent(0)] + ([WriteCarried(0, true)] + []));
  }

  const FIRST_COUNT: Change := ByEdit(0, None, ONE)
  const FIRST_WRITE: Item := Item(0, 0, None, None, OfContent(ONE), ONE, 1000)

  /** The first write is sent, and sent again when its answer does not come. */
  lemma {:induction false} CountIsSent()
    ensures var started, read := Counting(MISSING, Reading, 0, [], []), Counting(MISSING, Holding(FIRST_WRITE), 0, [], []);
      var sent := Counting(MISSING, Holding(FIRST_WRITE), 0, [FIRST_WRITE], []);
      && Enabled(NewWorld(MISSING), Started(0, CountUp())) && Happen(NewWorld(MISSING), Started(0, CountUp())) == started
      && Enabled(started, ReadDone(0)) && Happen(started, ReadDone(0)) == read
      && Enabled(read, WriteSent(0)) && Happen(read, WriteSent(0)) == sent
      && Enabled(sent, WriteSent(0))
      && Happen(sent, WriteSent(0)) == Counting(MISSING, Holding(FIRST_WRITE), 0, [FIRST_WRITE, FIRST_WRITE], [])
  {
    assert [] + [FIRST_WRITE] == [FIRST_WRITE] && [FIRST_WRITE] + [FIRST_WRITE] == [FIRST_WRITE, FIRST_WRITE];
  }

  /** Its first copy is carried out, and the second is refused by what the first wrote. */
  lemma {:induction false} CountIsCarriedAndRefused()
    ensures var resent := Counting(MISSING, Holding(FIRST_WRITE), 0, [FIRST_WRITE, FIRST_WRITE], []);
      var carried := Counting(Counter(ONE), Holding(FIRST_WRITE), 0, [FIRST_WRITE], [FIRST_COUNT]);
      && Enabled(resent, WriteCarried(0, false)) && Happen(resent, WriteCarried(0, false)) == carried
      && Enabled(carried, WriteCarried(0, true))
      && Happen(carried, WriteCarried(0, true)) == Counting(Counter(ONE), Reading, 1, [], [FIRST_COUNT])
  {
    assert [FIRST_WRITE, FIRST_WRITE][..0] + [FIRST_WRITE, FIRST_WRITE][1..] == [FIRST_WRITE];
    assert [FIRST_WRITE][..0] + [FIRST_WRITE][1..] == [] && [] + [FIRST_COUNT] == [FIRST_COUNT];
  }

  /** A write whose answer is lost is sent again and refused, because it had been carried out: the
      call takes that for a loss, reads its own write, and one call that succeeds counts twice. */
  lemma {:induction false} EditAppliedTwice() returns (events: seq<Event>)
    ensures Possible(NewWorld(MISSING), events)
    ensures var w := Run(NewWorld(MISSING), events);
      HasSucceeded(w, 0) && Times(w.history, 0) == 2 && LiveDocument(w.store) == Some(TWO) && w.calls.Keys == {0}
  {
    hide Happen, Enabled;
    CountIsSent();
    CountIsCarriedAndRefused();
    CountsAgain([FIRST_COUNT]);
    var item := FIRST_WRITE;
    events := [ReadDone(0)] + ([WriteSent(0)] + ([WriteCarried(0, true)] + []));
    Began(Counting(Counter(ONE), Holding(item), 0, [item], [FIRST_COUNT]), WriteCarried(0, true), events);
    events := [WriteCarried(0, true)] + events;
    Began(Counting(MISSING, Holding(item), 0, [item, item], []), WriteCarried(0, false), events);
    events := [WriteCarried(0, false)] + events;
    Began(Counting(MISSING, Holding(item), 0, [item], []), WriteSent(0), events);
    events := [WriteSent(0)] + events;
    Began(Counting(MISSING, Holding(item), 0, [], []), WriteSent(0), events);
    events := [WriteSent(0)] + events;
    Began(Counting(MISSING, Reading, 0, [], []), ReadDone(0), events);
    events := [ReadDone(0)] + events;
    Began(NewWorld(MISSING), Started(0, CountUp()), events);
    events := [Started(0, CountUp())] + events;
    OneMoreTime([], FIRST_COUNT, 0);
    OneMoreTime([FIRST_COUNT], ByEdit(0, Some(ONE), TWO), 0);
    assert [] + [FIRST_COUNT] == [FIRST_COUNT];
  }

  // ---- Counting versions --------------------------------------------------------------------------------------

  /** Nobody but the calls changes what a reader sees: no other writes, no expiry. */
  predicate OnlyCalls(w: World, e: Event)
    requires Enabled(w, e)
  {
    !e.Overwritten? && !e.Truncated? && (e.TimePassed? || e.Swept? ==> LiveDocument(Happen(w, e).store) == LiveDocument(w.store))
  }

  predicate AllByCalls(w: World, events: seq<Event>)
    requires Possible(w, events)
    decreases |events|
  {
    |events| == 0 || (OnlyCalls(w, events[0]) && AllByCalls(Happen(w, events[0]), events[1..]))
  }

  predicate OnlyEdits(history: seq<Change>) {
    forall i :: 0 <= i < |history| ==> history[i].ByEdit?
  }

  lemma {:induction false} CallsOnlyEdit(w: World, events: seq<Event>)
    requires Possible(w, events) && AllByCalls(w, events) && OnlyEdits(w.history)
    ensures OnlyEdits(Run(w, events).history)
    decreases |events|
  {
    if |events| > 0 {
      CallsOnlyEdit(Happen(w, events[0]), events[1..]);
    }
  }

  lemma {:induction false} EditsCount(w: World, history: seq<Change>, start: Option<Document>, end: Option<Document>)
    requires Linked(history, start, end) && OnlyEdits(history)
    requires forall i :: 0 <= i < |history| ==> EditRight(w.calls, history[i])
    ensures VersionOf(end) == VersionOf(start) + |history|
    decreases |history|
  {
    if |history| > 0 {
      assert EditRight(w.calls, history[|history| - 1]);
      EditsCount(w, history[..|history| - 1], start, BeforeOf(history[|history| - 1]));
    }
  }

  /** The calls that succeeded. */
  function Successes(w: World): set<nat> {
    set id | id in w.calls && w.calls[id].phase.Succeeded?
  }

  function Editors(history: seq<Change>): set<nat> {
    if |history| == 0 then {}
    else
      var last := history[|history| - 1];
      Editors(history[..|history| - 1]) + (if last.ByEdit? then {last.id} else {})
  }

  lemma {:induction false} EditorIff(history: seq<Change>, id: nat)
    ensures id in Editors(history) <==> Times(history, id) > 0
    decreases |history|
  {
    if |history| > 0 {
      EditorIff(history[..|history| - 1], id);
    }
  }

  lemma {:induction false} TimesMore(history: seq<Change>, k: nat, id: nat)
    requires k <= |history|
    ensures Times(history[..k], id) <= Times(history, id)
    decreases |history| - k
  {
    if k < |history| {
      assert history[..k + 1][..k] == history[..k];
      TimesMore(history, k + 1, id);
    } else {
      assert history[..k] == history;
    }
  }

  lemma {:induction false} DistinctEditors(history: seq<Change>)
    requires OnlyEdits(history) && forall id: nat :: Times(history, id) <= 1
    ensures |Editors(history)| == |history|
    decreases |history|
  {
    if |history| > 0 {
      var before, last := history[..|history| - 1], history[|history| - 1];
      forall id: nat
        ensures Times(before, id) <= 1
      {
        TimesMore(history, |history| - 1, id);
      }
      DistinctEditors(before);
      EditorIff(before, last.id);
      assert Times(history, last.id) <= 1;
    }
  }

  /** No update is lost and none counts twice: while only the calls write and their answers reach
      them, the version counts the calls that succeeded. */
  lemma {:induction false} VersionCountsEdits(store: Store, events: seq<Event>)
    requires RowFine(store) && Possible(NewWorld(store), events) && AllByCalls(NewWorld(store), events)
    ensures var w := Run(NewWorld(store), events);
      && VersionOf(LiveDocument(w.store)) == VersionOf(LiveDocument(store)) + |w.history|
      && ((forall id: nat :: AnswersReach(NewWorld(store), events, id)) ==>
            VersionOf(LiveDocument(w.store)) == VersionOf(LiveDocument(store)) + |Successes(w)|)
  {
    var w := Run(NewWorld(store), events);
    RunKeeps(NewWorld(store), events, LiveDocument(store));
    CallsOnlyEdit(NewWorld(store), events);
    EditsCount(w, w.history, LiveDocument(store), LiveDocument(w.store));
    if forall id: nat :: AnswersReach(NewWorld(store), events, id) {
      forall id: nat
        ensures TookEffect(w, id) && (id in Editors(w.history) <==> id in Successes(w))
      {
        assert AnswersReach(NewWorld(store), events, id);
        ExactlyOnceIff(store, events, id);
        EditorIff(w.history, id);
      }
      forall id: nat
        ensures Times(w.history, id) <= 1
      {
        assert TookEffect(w, id);
      }
      assert Editors(w.history) == Successes(w);
      DistinctEditors(w.history);
    }
  }

  // ---- Falsy content --------------------------------------------------------------------------------------------

  /** A stored content that JavaScript takes for false is edited as if the document were empty:
      with zero stored, adding one to it gives the empty value plus one. */
  lemma FalsyContentIsLost()
    ensures var e := Edit(Num(5), v => v, 3, 0);
      Edited(e, Some(Document(1, Num(0)))) == Document(2, Num(5))
  {
  }

  /** An edit applies every modifier to the stored content exactly if that content is truthy or
      is the empty value itself. */
  lemma EditsContentIff(empty: Json, d: Document)
    ensures (forall modifier: Json -> Json, maxRetries: int, ttl: nat ::
               Edited(Edit(empty, modifier, maxRetries, ttl), Some(d)) == Document(d.version + 1, modifier(d.content)))
      <==> Truthy(d.content) || empty == d.content
  {
    if !Truthy(d.content) && empty != d.content {
      var e := Edit(empty, v => v, 0, 0);
      assert Edited(e, Some(d)).content == empty;
      assert Edited(Edit(empty, e.modifier, 0, 0), Some(d)) != Document(d.version + 1, e.modifier(d.content));
    }
  }
}
