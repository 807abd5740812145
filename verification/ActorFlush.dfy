/** Consuming an actor's queue at most once: LRANGE, then LTRIM. As with any command, each copy of
    an LTRIM that was written may be carried out at any later moment, and one written twice may be
    carried out twice. */
module ActorFlush {
  import opened Text
  import opened ActorQueue

  /** What LRANGE answered to a flush: the messages pushed from position `start` on. */
  datatype Reading = Reading(flush: nat, start: nat, messages: seq<Message>)

  /** One LTRIM carried out: which flush it was for, and what it took off. */
  datatype Trim = Trim(reader: Reading, start: nat, count: nat)

  /** The list under flushing. `reading` is what LRANGE answered while LTRIM is outstanding, and
      `carried` whether a copy of that LTRIM was carried out; `wire` holds the copies that are on
      their way. `removed` counts what was taken off the list, `delivered` is what callers got. */
  datatype Flush = Flush(
    list: seq<Message>, pushed: seq<Message>, removed: nat, flushes: nat, reading: Option<Reading>, carried: bool,
    wire: seq<Reading>, trims: seq<Trim>, delivered: seq<Reading>)

  datatype FlushEvent =
    | Arrived(message: Message)
    | RangeAnswered
    | TrimWritten
    | TrimCarried(copy: nat)
    | TrimAnswered
    /** A command failed for the caller, or the process died; copies may still be on their way. */
    | FlushAbandoned

  predicate FlushEnabled(f: Flush, e: FlushEvent) {
    match e
    case RangeAnswered => f.reading.None?
    case TrimWritten => f.reading.Some?
    case TrimCarried(copy) => copy < |f.wire|
    case TrimAnswered => f.reading.Some? && f.carried
    case _ => true
  }

  function Taken(f: Flush, reader: Reading): nat {
    if |reader.messages| <= |f.list| then |reader.messages| else |f.list|
  }

  function FlushStep(f: Flush, e: FlushEvent): Flush
    requires FlushEnabled(f, e)
  {
    match e
    case Arrived(message) => f.(list := f.list + [message], pushed := f.pushed + [message])
    case RangeAnswered =>
      if |f.list| == 0 then f
      else f.(reading := Some(Reading(f.flushes, f.removed, f.list)), carried := false, flushes := f.flushes + 1)
    case TrimWritten => f.(wire := f.wire + [f.reading.value])
    case TrimCarried(copy) =>
      var reader := f.wire[copy];
      var count := Taken(f, reader);
      f.(list := f.list[count..], removed := f.removed + count, trims := f.trims + [Trim(reader, f.removed, count)],
         wire := f.wire[..copy] + f.wire[copy + 1..], carried := f.carried || f.reading == Some(reader))
    case TrimAnswered => f.(delivered := f.delivered + [f.reading.value], reading := None)
    case FlushAbandoned => f.(reading := None)
  }

  const NEW_FLUSH: Flush := Flush([], [], 0, 0, None, false, [], [], [])

  function End(r: Reading): nat {
    r.start + |r.messages|
  }

  /** A reading is what was pushed there. */
  predicate Slice(f: Flush, r: Reading) {
    |r.messages| > 0 && r.start <= f.removed && End(r) <= |f.pushed| && r.messages == f.pushed[r.start..End(r)]
  }

  predicate InOrder(delivered: seq<Reading>) {
    forall i, j :: 0 <= i < j < |delivered| ==> End(delivered[i]) <= delivered[j].start
  }

  /** What was delivered, or is about to be, was taken off the list before the next reading. */
  predicate FlushInv(f: Flush) {
    && f.removed <= |f.pushed| && f.list == f.pushed[f.removed..]
    && (forall r <- f.delivered :: Slice(f, r) && End(r) <= f.removed) && InOrder(f.delivered)
    && (forall r <- f.wire :: Slice(f, r))
    && (f.reading.Some? ==>
          && Slice(f, f.reading.value) && (f.carried ==> End(f.reading.value) <= f.removed)
          && forall r <- f.delivered :: End(r) <= f.reading.value.start)
  }

  /** What Redis does at least moves the list on, and pushes only grow. */
  lemma SliceLater(f: Flush, g: Flush, r: Reading)
    requires Slice(f, r) && f.removed <= g.removed && f.pushed <= g.pushed
    ensures Slice(g, r)
  {
  }

  lemma {:induction false} FlushStepKeeps(f: Flush, e: FlushEvent)
    requires FlushInv(f) && FlushEnabled(f, e)
    ensures FlushInv(FlushStep(f, e))
  {
    var g := FlushStep(f, e);
    forall r: Reading | Slice(f, r)
      ensures Slice(g, r)
    {
      SliceLater(f, g, r);
    }
    if e.RangeAnswered? {
      assert f.pushed[f.removed..|f.pushed|] == f.pushed[f.removed..];
    }
  }

  predicate FlushPossible(f: Flush, events: seq<FlushEvent>)
    decreases |events|
  {
    |events| == 0 || (FlushEnabled(f, events[0]) && FlushPossible(FlushStep(f, events[0]), events[1..]))
  }

  function FlushRun(f: Flush, events: seq<FlushEvent>): Flush
    requires FlushPossible(f, events)
    decreases |events|
  {
    if |events| == 0 then f else FlushRun(FlushStep(f, events[0]), events[1..])
  }

  lemma {:induction false} FlushRunKeeps(f: Flush, events: seq<FlushEvent>)
    requires FlushInv(f) && FlushPossible(f, events)
    ensures FlushInv(FlushRun(f, events))
    decreases |events|
  {
    if |events| > 0 {
      FlushStepKeeps(f, events[0]);
      FlushRunKeeps(FlushStep(f, events[0]), events[1..]);
    }
  }

  /** However often LTRIM is carried out, and whenever flushes are given up: what callers got are
      pieces of the pushes, one after the other, so no message is ever delivered twice or out of
      order; and what is left on the list are the last ones pushed. */
  lemma {:induction false} DeliveredAtMostOnce(events: seq<FlushEvent>)
    requires FlushPossible(NEW_FLUSH, events)
    ensures var f := FlushRun(NEW_FLUSH, events);
      && f.removed <= |f.pushed| && f.list == f.pushed[f.removed..] && InOrder(f.delivered)
      && forall r <- f.delivered :: End(r) <= f.removed && r.messages == f.pushed[r.start..End(r)]
  {
    FlushRunKeeps(NEW_FLUSH, events);
  }

  // ---- Nothing is taken unread ---------------------------------------------------------------------------

  /** A trim took off only what its own flush had read. */
  predicate TookOnlyRead(t: Trim) {
    t.count > 0 ==> t.reader.start <= t.start && t.start + t.count <= End(t.reader)
  }

  predicate NothingUnread(f: Flush) {
    forall t <- f.trims :: TookOnlyRead(t)
  }

  /** An LTRIM that is carried out is the first since its flush read the list; or nothing was pushed
      since; or the list is empty. */
  predicate CleanTrim(f: Flush, e: FlushEvent)
    requires FlushEnabled(f, e)
  {
    e.TrimCarried? ==>
      f.wire[e.copy].start == f.removed || |f.pushed| <= End(f.wire[e.copy]) || |f.list| == 0
  }

  predicate TrimsClean(f: Flush, events: seq<FlushEvent>)
    requires FlushPossible(f, events)
    decreases |events|
  {
    |events| == 0 || (CleanTrim(f, events[0]) && TrimsClean(FlushStep(f, events[0]), events[1..]))
  }

  lemma {:induction false} NothingUnreadStep(f: Flush, e: FlushEvent)
    requires FlushInv(f) && FlushEnabled(f, e)
    ensures NothingUnread(FlushStep(f, e)) <==> NothingUnread(f) && CleanTrim(f, e)
  {
    var g := FlushStep(f, e);
    if e.TrimCarried? {
      var t := Trim(f.wire[e.copy], f.removed, Taken(f, f.wire[e.copy]));
      assert Slice(f, f.wire[e.copy]);
      assert TookOnlyRead(t) <==> CleanTrim(f, e);
      assert g.trims == f.trims + [t] && t in g.trims;
      assert forall u <- f.trims :: u in g.trims;
    }
  }

  lemma {:induction false} NothingUnreadRun(f: Flush, events: seq<FlushEvent>)
    requires FlushInv(f) && FlushPossible(f, events)
    ensures NothingUnread(FlushRun(f, events)) <==> NothingUnread(f) && TrimsClean(f, events)
    decreases |events|
  {
    if |events| > 0 {
      FlushStepKeeps(f, events[0]);
      NothingUnreadStep(f, events[0]);
      NothingUnreadRun(FlushStep(f, events[0]), events[1..]);
    }
  }

  /** Every message that left the list had been read by the flush that took it off, if and only if
      each LTRIM that was carried out was the first since its flush read the list, or nothing was
      pushed since, or the list was empty. */
  lemma {:induction false} NothingUnreadIff(events: seq<FlushEvent>)
    requires FlushPossible(NEW_FLUSH, events)
    ensures NothingUnread(FlushRun(NEW_FLUSH, events)) <==> TrimsClean(NEW_FLUSH, events)
  {
    NothingUnreadRun(NEW_FLUSH, events);
  }

  /** An LTRIM is written once, and no flush begins or is given up while one is on its way. */
  predicate TrimOnce(f: Flush, e: FlushEvent) {
    (e.TrimWritten? ==> f.wire == [] && !f.carried) && (e.FlushAbandoned? ==> f.wire == [])
  }

  predicate TrimsOnce(f: Flush, events: seq<FlushEvent>)
    requires FlushPossible(f, events)
    decreases |events|
  {
    |events| == 0 || (TrimOnce(f, events[0]) && TrimsOnce(FlushStep(f, events[0]), events[1..]))
  }

  predicate OneTrim(f: Flush) {
    && |f.wire| <= 1 && (f.wire != [] ==> f.reading == Some(f.wire[0]) && !f.carried)
    && (f.reading.Some? && !f.carried ==> f.reading.value.start == f.removed)
  }

  lemma {:induction false} TrimsOnceClean(f: Flush, events: seq<FlushEvent>)
    requires OneTrim(f) && FlushPossible(f, events) && TrimsOnce(f, events)
    ensures TrimsClean(f, events)
    decreases |events|
  {
    if |events| > 0 {
      assert OneTrim(FlushStep(f, events[0])) && CleanTrim(f, events[0]);
      TrimsOnceClean(FlushStep(f, events[0]), events[1..]);
    }
  }

  /** So it is when every LTRIM is carried out once, before its flush is given up. */
  lemma {:induction false} NothingUnreadWhenOnce(events: seq<FlushEvent>)
    requires FlushPossible(NEW_FLUSH, events) && TrimsOnce(NEW_FLUSH, events)
    ensures NothingUnread(FlushRun(NEW_FLUSH, events))
  {
    TrimsOnceClean(NEW_FLUSH, events);
    NothingUnreadIff(events);
  }

  /** What was taken off, piece after piece. */
  predicate Tiles(trims: seq<Trim>, removed: nat) {
    if |trims| == 0 then removed == 0
    else
      var last := trims[|trims| - 1];
      last.start + last.count == removed && Tiles(trims[..|trims| - 1], last.start)
  }

  /** Every message pushed is on the list or was taken off it by exactly one LTRIM. */
  lemma {:induction false} TrimsTile(f: Flush, events: seq<FlushEvent>)
    requires FlushPossible(f, events) && Tiles(f.trims, f.removed)
    ensures Tiles(FlushRun(f, events).trims, FlushRun(f, events).removed)
    decreases |events|
  {
    if |events| > 0 {
      var g := FlushStep(f, events[0]);
      assert |g.trims| > |f.trims| ==> g.trims[..|f.trims|] == f.trims;
      TrimsTile(g, events[1..]);
    }
  }

  lemma {:induction false} FlushBegan(f: Flush, e: FlushEvent, events: seq<FlushEvent>)
    requires FlushEnabled(f, e) && FlushPossible(FlushStep(f, e), events)
    ensures FlushPossible(f, [e] + events) && FlushRun(f, [e] + events) == FlushRun(FlushStep(f, e), events)
  {
    assert ([e] + events)[1..] == events;
  }

  /** A flush by itself, also after one that was given up, delivers everything that waits and leaves the
      list empty. */
  lemma {:induction false} FlushTakesAll(f: Flush)
    requires |f.list| > 0
    ensures var run := [FlushAbandoned] + ([RangeAnswered] + ([TrimWritten] + ([TrimCarried(|f.wire|)] + ([TrimAnswered] + []))));
      && FlushPossible(f, run)
      && var r := FlushRun(f, run);
      && r.list == [] && r.reading.None? && r.wire == f.wire && r.pushed == f.pushed && r.removed == f.removed + |f.list|
      && r.delivered == f.delivered + [Reading(f.flushes, f.removed, f.list)]
  {
    var free := FlushStep(f, FlushAbandoned);
    var read := FlushStep(free, RangeAnswered);
    var written := FlushStep(read, TrimWritten);
    var trimmed := FlushStep(written, TrimCarried(|f.wire|));
    var answered := FlushStep(trimmed, TrimAnswered);
    assert written.wire[|f.wire|] == Reading(f.flushes, f.removed, f.list);
    assert written.wire[..|f.wire|] + written.wire[|f.wire| + 1..] == f.wire;
    assert f.list[|f.list|..] == [];
    assert FlushEnabled(trimmed, TrimAnswered) && FlushEnabled(written, TrimCarried(|f.wire|));
    hide FlushStep, FlushEnabled;
    FlushBegan(trimmed, TrimAnswered, []);
    FlushBegan(written, TrimCarried(|f.wire|), [TrimAnswered] + []);
    FlushBegan(read, TrimWritten, [TrimCarried(|f.wire|)] + ([TrimAnswered] + []));
    FlushBegan(free, RangeAnswered, [TrimWritten] + ([TrimCarried(|f.wire|)] + ([TrimAnswered] + [])));
    FlushBegan(f, FlushAbandoned, [RangeAnswered] + ([TrimWritten] + ([TrimCarried(|f.wire|)] + ([TrimAnswered] + []))));
  }

  /** From the moment one message was read and the LTRIM carried out, its answer lost. */
  lemma {:induction false} ResentTrim(a: Message, b: Message)
    ensures var r := Reading(0, 0, [a]);
      var f := Flush([], [a], 1, 1, Some(r), true, [], [Trim(r, 0, 1)], []);
      var run := [Arrived(b)] + ([TrimWritten] + ([TrimCarried(0)] + ([TrimAnswered] + [])));
      FlushPossible(f, run)
      && FlushRun(f, run) == Flush([], [a, b], 2, 1, None, true, [], [Trim(r, 0, 1), Trim(r, 1, 1)], [r])
  {
    var r := Reading(0, 0, [a]);
    var f := Flush([], [a], 1, 1, Some(r), true, [], [Trim(r, 0, 1)], []);
    var pushed := Flush([b], [a, b], 1, 1, Some(r), true, [], [Trim(r, 0, 1)], []);
    var resent := Flush([b], [a, b], 1, 1, Some(r), true, [r], [Trim(r, 0, 1)], []);
    var again := Flush([], [a, b], 2, 1, Some(r), true, [], [Trim(r, 0, 1), Trim(r, 1, 1)], []);
    assert [] + [b] == [b] && [a] + [b] == [a, b] && [b][1..] == [] && [] + [r] == [r] && [r][..0] + [r][1..] == [];
    assert [Trim(r, 0, 1)] + [Trim(r, 1, 1)] == [Trim(r, 0, 1), Trim(r, 1, 1)];
    assert FlushStep(f, Arrived(b)) == pushed && FlushStep(pushed, TrimWritten) == resent;
    assert FlushStep(resent, TrimCarried(0)) == again;
    FlushBegan(again, TrimAnswered, []);
    FlushBegan(resent, TrimCarried(0), [TrimAnswered] + []);
    FlushBegan(pushed, TrimWritten, [TrimCarried(0)] + ([TrimAnswered] + []));
    FlushBegan(f, Arrived(b), [TrimWritten] + ([TrimCarried(0)] + ([TrimAnswered] + [])));
  }

  /** An LTRIM that is resent after it was carried out takes off a message pushed meanwhile that
      nobody read, and the flush returns as if nothing had happened. */
  lemma {:induction false} ResentTrimLosesUnread(a: Message, b: Message) returns (events: seq<FlushEvent>)
    ensures FlushPossible(NEW_FLUSH, events)
    ensures var f := FlushRun(NEW_FLUSH, events);
      && f.pushed == [a, b] && f.list == [] && |f.delivered| == 1 && f.delivered[0].messages == [a]
      && f.reading.None? && !NothingUnread(f)
  {
    var r := Reading(0, 0, [a]);
    var pushed := Flush([a], [a], 0, 0, None, false, [], [], []);
    var read := Flush([a], [a], 0, 1, Some(r), false, [], [], []);
    var written := Flush([a], [a], 0, 1, Some(r), false, [r], [], []);
    var carried := Flush([], [a], 1, 1, Some(r), true, [], [Trim(r, 0, 1)], []);
    assert [] + [a] == [a] && [a][1..] == [] && [] + [r] == [r] && [r][..0] + [r][1..] == [];
    assert [] + [Trim(r, 0, 1)] == [Trim(r, 0, 1)];
    assert FlushStep(NEW_FLUSH, Arrived(a)) == pushed && FlushStep(pushed, RangeAnswered) == read;
    assert FlushStep(read, TrimWritten) == written && FlushStep(written, TrimCarried(0)) == carried;
    ResentTrim(a, b);
    var rest := [Arrived(b)] + ([TrimWritten] + ([TrimCarried(0)] + ([TrimAnswered] + [])));
    var lost := FlushRun(carried, rest);
    assert lost.trims[1] in lost.trims && !TookOnlyRead(lost.trims[1]);
    FlushBegan(written, TrimCarried(0), rest);
    rest := [TrimCarried(0)] + rest;
    FlushBegan(read, TrimWritten, rest);
    rest := [TrimWritten] + rest;
    FlushBegan(pushed, RangeAnswered, rest);
    rest := [RangeAnswered] + rest;
    FlushBegan(NEW_FLUSH, Arrived(a), rest);
    events := [Arrived(a)] + rest;
  }

  // ---- Refinement of the atomic queue --------------------------------------------------------------------

  /** The in-memory queue: a flush takes everything at once. */
  datatype Atomic = Atomic(list: seq<Message>, delivered: seq<seq<Message>>)

  function AtomicFlush(a: Atomic): Atomic {
    if |a.list| == 0 then a else Atomic([], a.delivered + [a.list])
  }

  function Batches(delivered: seq<Reading>): seq<seq<Message>> {
    if |delivered| == 0 then [] else Batches(delivered[..|delivered| - 1]) + [delivered[|delivered| - 1].messages]
  }

  /** The atomic queue has already flushed when LRANGE has answered. */
  predicate Simulates(a: Atomic, f: Flush) {
    && (if f.reading.Some? && !f.carried then
          |f.reading.value.messages| <= |f.list| && a.list == f.list[|f.reading.value.messages|..]
        else a.list == f.list)
    && a.delivered == if f.reading.Some? then Batches(f.delivered) + [f.reading.value.messages] else Batches(f.delivered)
  }

  /** What the atomic queue does at each command: everything at LRANGE, nothing at LTRIM. */
  function AtomicStep(a: Atomic, e: FlushEvent): Atomic {
    match e
    case Arrived(message) => a.(list := a.list + [message])
    case RangeAnswered => AtomicFlush(a)
    case _ => a
  }

  /** In every state of the run. */
  predicate SimulatesAll(a: Atomic, f: Flush, events: seq<FlushEvent>)
    requires FlushPossible(f, events)
    decreases |events|
  {
    Simulates(a, f) && (|events| > 0 ==> SimulatesAll(AtomicStep(a, events[0]), FlushStep(f, events[0]), events[1..]))
  }

  predicate NeverAbandoned(events: seq<FlushEvent>) {
    forall i :: 0 <= i < |events| ==> !events[i].FlushAbandoned?
  }

  /** Copies on their way are of the outstanding LTRIM or of one that was carried out. */
  predicate CopiesFine(f: Flush) {
    && (f.reading.Some? && !f.carried ==> f.reading.value.start == f.removed)
    && forall r <- f.wire :: (f.reading == Some(r) && !f.carried && r.start == f.removed) || End(r) <= f.removed
  }

  lemma {:induction false} SimulationTrim(a: Atomic, f: Flush, copy: nat)
    requires FlushInv(f) && Simulates(a, f) && CopiesFine(f) && FlushEnabled(f, TrimCarried(copy))
    ensures Simulates(a, FlushStep(f, TrimCarried(copy))) <==> CleanTrim(f, TrimCarried(copy))
    ensures CleanTrim(f, TrimCarried(copy)) ==> CopiesFine(FlushStep(f, TrimCarried(copy)))
  {
    var reader, g := f.wire[copy], FlushStep(f, TrimCarried(copy));
    assert Slice(f, reader);
    assert forall r <- g.wire :: r in f.wire;
    if End(reader) <= f.removed {
      assert CleanTrim(f, TrimCarried(copy)) <==> |f.list| == 0;
      assert |g.list| == |f.list| - Taken(f, reader);
      if f.reading.Some? && !f.carried {
        assert f.reading != Some(reader) && g.reading == f.reading && !g.carried;
        assert |a.list| == |f.list| - |f.reading.value.messages|;
      }
    }
  }

  lemma {:induction false} SimulationStep(a: Atomic, f: Flush, e: FlushEvent)
    requires FlushInv(f) && Simulates(a, f) && CopiesFine(f) && FlushEnabled(f, e) && !e.FlushAbandoned?
    ensures Simulates(AtomicStep(a, e), FlushStep(f, e)) <==> CleanTrim(f, e)
    ensures CleanTrim(f, e) ==> CopiesFine(FlushStep(f, e))
  {
    match e
    case Arrived(message) =>
      if f.reading.Some? && !f.carried {
        var n := |f.reading.value.messages|;
        assert (f.list + [message])[n..] == f.list[n..] + [message];
      }
    case RangeAnswered => assert f.list[|f.list|..] == [];
    case TrimCarried(copy) => SimulationTrim(a, f, copy);
    case TrimAnswered =>
      var delivered := f.delivered + [f.reading.value];
      assert delivered[..|f.delivered|] == f.delivered;
    case TrimWritten =>
  }

  /** When no flush is abandoned, the two-command flush behaves in every state as the in-memory queue
      does, batches and messages left over, if and only if its LTRIMs are clean. */
  lemma {:induction false} FlushRefinesAtomicIff(a: Atomic, f: Flush, events: seq<FlushEvent>)
    requires FlushInv(f) && Simulates(a, f) && CopiesFine(f) && FlushPossible(f, events) && NeverAbandoned(events)
    ensures SimulatesAll(a, f, events) <==> TrimsClean(f, events)
    decreases |events|
  {
    if |events| > 0 {
      assert !events[0].FlushAbandoned?;
      FlushStepKeeps(f, events[0]);
      SimulationStep(a, f, events[0]);
      if CleanTrim(f, events[0]) {
        FlushRefinesAtomicIff(AtomicStep(a, events[0]), FlushStep(f, events[0]), events[1..]);
      }
    }
  }
}
