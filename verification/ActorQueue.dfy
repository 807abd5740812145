/** Consuming an actor's queue at least once, with one drainer at a time: peek, handle and pop. A
    command whose connection drops is written again on the next one, and one that was given up may
    still be on its way: so each copy of an LPOP that was written may be carried out at any later
    moment, and one written twice may be carried out twice. */
module ActorQueue {
  import opened Text

  /** A message as it is stored. */
  type Message = Text

  /** What the current drainer has done with the message it peeked at, and which push that was. */
  datatype Stage =
    | Between
    | Peeked(at: nat, message: Message)
    | Handled(at: nat, message: Message)
    | Popping(at: nat, message: Message, carried: bool)

  /** One run of the handler, and which push it was for. */
  datatype HandlerRun = HandlerRun(position: nat, message: Message)

  /** One message popped, and how many runs of the handler had finished by then. */
  datatype Pop = Pop(message: Message, runs: nat)

  /** The queue under single-mode processing. `pushed` and `popped` record what producers and
      drainers did; `handled` is every run of the handler that finished. `own` copies of the
      current LPOP are on their way to Redis, and `strays` that nobody waits for any more. */
  datatype Drain = Drain(
    list: seq<Message>, stage: Stage, pushed: seq<Message>, popped: seq<Pop>, handled: seq<HandlerRun>, own: nat, strays: nat)

  datatype DrainEvent =
    | Pushed(message: Message)
    | PeekDone
    | HandlerDone
    | PopWritten
    | PopCarried
    | StrayCarried
    | PopAnswered
    /** The process died, or a command of its failed: another drainer takes over with a peek. */
    | DrainerGone

  predicate DrainEnabled(d: Drain, e: DrainEvent) {
    match e
    case PeekDone => d.stage.Between? && |d.list| > 0
    case HandlerDone => d.stage.Peeked?
    case PopWritten => d.stage.Handled? || d.stage.Popping?
    case PopCarried => d.stage.Popping? && d.own > 0
    case StrayCarried => d.strays > 0
    case PopAnswered => d.stage.Popping? && d.stage.carried
    case _ => true
  }

  function PopHead(d: Drain): Drain {
    if |d.list| == 0 then d else d.(list := d.list[1..], popped := d.popped + [Pop(d.list[0], |d.handled|)])
  }

  function Left(d: Drain): Drain {
    d.(stage := Between, strays := d.strays + d.own, own := 0)
  }

  function DrainStep(d: Drain, e: DrainEvent): Drain
    requires DrainEnabled(d, e)
  {
    match e
    case Pushed(message) => d.(list := d.list + [message], pushed := d.pushed + [message])
    case PeekDone => d.(stage := Peeked(|d.popped|, d.list[0]))
    case HandlerDone =>
      d.(stage := Handled(d.stage.at, d.stage.message), handled := d.handled + [HandlerRun(d.stage.at, d.stage.message)])
    case PopWritten =>
      d.(stage := Popping(d.stage.at, d.stage.message, d.stage.Popping? && d.stage.carried), own := d.own + 1)
    case PopCarried => PopHead(d).(stage := d.stage.(carried := true), own := d.own - 1)
    case StrayCarried => PopHead(d).(strays := d.strays - 1)
    case PopAnswered => Left(d)
    case DrainerGone => Left(d)
  }

  const NEW_DRAIN: Drain := Drain([], Between, [], [], [], 0, 0)

  function Messages(popped: seq<Pop>): (r: seq<Message>)
    ensures |r| == |popped| && forall i :: 0 <= i < |popped| ==> r[i] == popped[i].message
  {
    if |popped| == 0 then [] else Messages(popped[..|popped| - 1]) + [popped[|popped| - 1].message]
  }

  // ---- What holds whatever is carried out twice ------------------------------------------------------

  predicate RunFine(d: Drain, i: nat)
    requires i < |d.handled|
  {
    var run := d.handled[i];
    run.position <= |d.popped| && run.position < |d.pushed| && run.message == d.pushed[run.position]
  }

  /** The drainer's message is the one pushed there, and no run so far was for a later one. */
  predicate StageFine(d: Drain) {
    !d.stage.Between? ==>
      && d.stage.at <= |d.popped| && d.stage.at < |d.pushed| && d.stage.message == d.pushed[d.stage.at]
      && forall i :: 0 <= i < |d.handled| ==> d.handled[i].position <= d.stage.at
  }

  predicate DrainInv(d: Drain) {
    && d.pushed == Messages(d.popped) + d.list
    && (forall i :: 0 <= i < |d.handled| ==> RunFine(d, i))
    && (forall i, j :: 0 <= i < j < |d.handled| ==> d.handled[i].position <= d.handled[j].position)
    && StageFine(d) && forall k :: 0 <= k < |d.popped| ==> d.popped[k].runs <= |d.handled|
  }

  lemma {:induction false} PopHeadKeeps(d: Drain)
    requires DrainInv(d)
    ensures DrainInv(PopHead(d))
  {
    if |d.list| > 0 {
      var r := PopHead(d);
      assert Messages(r.popped) == Messages(d.popped) + [d.list[0]];
      assert Messages(d.popped) + d.list == Messages(d.popped) + [d.list[0]] + d.list[1..];
      forall i | 0 <= i < |r.handled|
        ensures RunFine(r, i)
      {
        assert RunFine(d, i);
      }
    }
  }

  lemma {:induction false} StageStepFine(d: Drain, e: DrainEvent)
    requires DrainInv(d) && DrainEnabled(d, e)
    ensures StageFine(DrainStep(d, e))
  {
    if e.PeekDone? {
      assert d.pushed[|d.popped|] == d.list[0];
      forall i | 0 <= i < |d.handled|
        ensures d.handled[i].position <= |d.popped|
      {
        assert RunFine(d, i);
      }
    }
  }

  lemma {:induction false} DrainStepKeeps(d: Drain, e: DrainEvent)
    requires DrainInv(d) && DrainEnabled(d, e)
    ensures DrainInv(DrainStep(d, e))
  {
    var r := DrainStep(d, e);
    StageStepFine(d, e);
    PopHeadKeeps(d);
    forall i | 0 <= i < |r.handled|
      ensures RunFine(r, i)
    {
      assert i < |d.handled| ==> RunFine(d, i) && RunFine(PopHead(d), i);
    }
  }

  predicate DrainPossible(d: Drain, events: seq<DrainEvent>)
    decreases |events|
  {
    |events| == 0 || (DrainEnabled(d, events[0]) && DrainPossible(DrainStep(d, events[0]), events[1..]))
  }

  function DrainRun(d: Drain, events: seq<DrainEvent>): Drain
    requires DrainPossible(d, events)
    decreases |events|
  {
    if |events| == 0 then d else DrainRun(DrainStep(d, events[0]), events[1..])
  }

  lemma {:induction false} DrainRunKeeps(d: Drain, events: seq<DrainEvent>)
    requires DrainInv(d) && DrainPossible(d, events)
    ensures DrainInv(DrainRun(d, events))
    decreases |events|
  {
    if |events| > 0 {
      DrainStepKeeps(d, events[0]);
      DrainRunKeeps(DrainStep(d, events[0]), events[1..]);
    }
  }

  /** However often commands are carried out, and wherever drainers were replaced: the popped
      messages are the first ones pushed, and the handler is run for messages in the order in which
      they were pushed, never going back. */
  lemma {:induction false} HandledInOrder(events: seq<DrainEvent>)
    requires DrainPossible(NEW_DRAIN, events)
    ensures var d := DrainRun(NEW_DRAIN, events);
      && d.pushed == Messages(d.popped) + d.list
      && (forall i, j :: 0 <= i < j < |d.handled| ==> d.handled[i].position <= d.handled[j].position)
      && forall i :: 0 <= i < |d.handled| ==>
           d.handled[i].position < |d.pushed| && d.handled[i].message == d.pushed[d.handled[i].position]
  {
    DrainRunKeeps(NEW_DRAIN, events);
    var d := DrainRun(NEW_DRAIN, events);
    forall i | 0 <= i < |d.handled|
      ensures d.handled[i].position < |d.pushed| && d.handled[i].message == d.pushed[d.handled[i].position]
    {
      assert RunFine(d, i);
    }
  }

  // ---- Handled before popped ---------------------------------------------------------------------------

  /** Among the first `runs` runs of the handler is one for this push. */
  predicate RanFor(handled: seq<HandlerRun>, runs: nat, position: nat) {
    exists i :: 0 <= i < |handled| && i < runs && handled[i].position == position
  }

  /** Every popped message had been handled when it was popped. */
  predicate HandledFirst(d: Drain) {
    forall k :: 0 <= k < |d.popped| ==> RanFor(d.handled, d.popped[k].runs, k)
  }

  /** No LPOP was carried out since the message handled last was peeked at. */
  predicate HeadIsHandled(d: Drain) {
    |d.handled| > 0 && d.handled[|d.handled| - 1].position == |d.popped|
  }

  /** An LPOP that is carried out finds the message handled last at the head, or an empty list. */
  predicate CleanPop(d: Drain, e: DrainEvent) {
    e.PopCarried? || e.StrayCarried? ==> |d.list| == 0 || HeadIsHandled(d)
  }

  predicate PopsClean(d: Drain, events: seq<DrainEvent>)
    requires DrainPossible(d, events)
    decreases |events|
  {
    |events| == 0 || (CleanPop(d, events[0]) && PopsClean(DrainStep(d, events[0]), events[1..]))
  }

  lemma RanForHead(d: Drain)
    requires DrainInv(d)
    ensures RanFor(d.handled, |d.handled|, |d.popped|) <==> HeadIsHandled(d)
  {
    if RanFor(d.handled, |d.handled|, |d.popped|) {
      var i :| 0 <= i < |d.handled| && d.handled[i].position == |d.popped|;
      assert RunFine(d, |d.handled| - 1);
    }
  }

  /** Later runs of the handler do not change what had been handled at a pop. */
  lemma RanForMore(d: Drain, r: Drain)
    requires DrainInv(d) && d.popped <= r.popped && d.handled <= r.handled
    ensures forall k :: 0 <= k < |d.popped| ==>
      (RanFor(r.handled, r.popped[k].runs, k) <==> RanFor(d.handled, d.popped[k].runs, k))
  {
    forall k | 0 <= k < |d.popped|
      ensures RanFor(r.handled, r.popped[k].runs, k) <==> RanFor(d.handled, d.popped[k].runs, k)
    {
      assert r.popped[k] == d.popped[k];
      assert forall i :: 0 <= i < |d.handled| ==> r.handled[i] == d.handled[i];
    }
  }

  lemma {:induction false} HandledFirstStep(d: Drain, e: DrainEvent)
    requires DrainInv(d) && DrainEnabled(d, e)
    ensures HandledFirst(DrainStep(d, e)) <==> HandledFirst(d) && CleanPop(d, e)
  {
    var r := DrainStep(d, e);
    assert d.popped <= r.popped && d.handled <= r.handled;
    RanForMore(d, r);
    RanForHead(d);
    if |r.popped| > |d.popped| {
      assert r.popped[|d.popped|] == Pop(d.list[0], |d.handled|);
      assert RanFor(r.handled, r.popped[|d.popped|].runs, |d.popped|) <==> HeadIsHandled(d);
    }
    if HandledFirst(r) {
      forall k | 0 <= k < |d.popped|
        ensures RanFor(d.handled, d.popped[k].runs, k)
      {
        assert RanFor(r.handled, r.popped[k].runs, k);
      }
    }
  }

  lemma {:induction false} HandledFirstRun(d: Drain, events: seq<DrainEvent>)
    requires DrainInv(d) && DrainPossible(d, events)
    ensures HandledFirst(DrainRun(d, events)) <==> HandledFirst(d) && PopsClean(d, events)
    decreases |events|
  {
    if |events| > 0 {
      DrainStepKeeps(d, events[0]);
      HandledFirstStep(d, events[0]);
      HandledFirstRun(DrainStep(d, events[0]), events[1..]);
    }
  }

  /** Every message is handled before it is popped if and only if each LPOP that is carried out is
      the first since the message handled last was peeked at, or finds the list empty. */
  lemma {:induction false} HandledFirstIff(events: seq<DrainEvent>)
    requires DrainPossible(NEW_DRAIN, events)
    ensures HandledFirst(DrainRun(NEW_DRAIN, events)) <==> PopsClean(NEW_DRAIN, events)
  {
    HandledFirstRun(NEW_DRAIN, events);
  }

  /** An LPOP is written once, and nobody leaves while it is on its way. */
  predicate PopOnce(d: Drain, e: DrainEvent) {
    (e.PopWritten? ==> d.stage.Handled?) && (e.DrainerGone? ==> d.own == 0)
  }

  predicate PopsOnce(d: Drain, events: seq<DrainEvent>)
    requires DrainPossible(d, events)
    decreases |events|
  {
    |events| == 0 || (PopOnce(d, events[0]) && PopsOnce(DrainStep(d, events[0]), events[1..]))
  }

  predicate OneCopy(d: Drain) {
    && d.strays == 0 && d.own <= 1 && (d.own == 1 ==> d.stage.Popping? && !d.stage.carried)
    && (d.stage.Peeked? ==> d.stage.at == |d.popped|)
    && (d.stage.Handled? || d.own == 1 ==> HeadIsHandled(d))
    && (d.stage.Popping? ==> d.own == 1 || d.stage.carried)
  }

  lemma {:induction false} PopsOnceClean(d: Drain, events: seq<DrainEvent>)
    requires OneCopy(d) && DrainPossible(d, events) && PopsOnce(d, events)
    ensures PopsClean(d, events)
    decreases |events|
  {
    if |events| > 0 {
      assert OneCopy(DrainStep(d, events[0])) && CleanPop(d, events[0]);
      PopsOnceClean(DrainStep(d, events[0]), events[1..]);
    }
  }

  /** So it is when every LPOP is carried out once, before its drainer gives it up. */
  lemma {:induction false} HandledFirstWhenOnce(events: seq<DrainEvent>)
    requires DrainPossible(NEW_DRAIN, events) && PopsOnce(NEW_DRAIN, events)
    ensures HandledFirst(DrainRun(NEW_DRAIN, events))
  {
    PopsOnceClean(NEW_DRAIN, events);
    HandledFirstIff(events);
  }

  lemma {:induction false} DrainBegan(d: Drain, e: DrainEvent, events: seq<DrainEvent>)
    requires DrainEnabled(d, e) && DrainPossible(DrainStep(d, e), events)
    ensures DrainPossible(d, [e] + events) && DrainRun(d, [e] + events) == DrainRun(DrainStep(d, e), events)
  {
    assert ([e] + events)[1..] == events;
  }

  // ---- Draining ---------------------------------------------------------------------------------------

  /** One run of the handler for each message, from this push on. */
  function EachOf(list: seq<Message>, at: nat): seq<HandlerRun> {
    if |list| == 0 then [] else [HandlerRun(at, list[0])] + EachOf(list[1..], at + 1)
  }

  /** The head handled and taken off. */
  function HeadDone(d: Drain): Drain
    requires |d.list| > 0
  {
    d.(list := d.list[1..], popped := d.popped + [Pop(d.list[0], |d.handled| + 1)],
       handled := d.handled + [HandlerRun(|d.popped|, d.list[0])])
  }

  lemma {:induction false} OneRound(d: Drain, rest: seq<DrainEvent>) returns (events: seq<DrainEvent>)
    requires d.stage.Between? && |d.list| > 0 && d.own == 0 && DrainPossible(HeadDone(d), rest)
    ensures DrainPossible(d, events) && DrainRun(d, events) == DrainRun(HeadDone(d), rest)
  {
    var peeked := DrainStep(d, PeekDone);
    var handled := DrainStep(peeked, HandlerDone);
    var popping := DrainStep(handled, PopWritten);
    var popped := DrainStep(popping, PopCarried);
    assert DrainStep(popped, PopAnswered) == HeadDone(d);
    DrainBegan(popped, PopAnswered, rest);
    events := [PopAnswered] + rest;
    DrainBegan(popping, PopCarried, events);
    events := [PopCarried] + events;
    DrainBegan(handled, PopWritten, events);
    events := [PopWritten] + events;
    DrainBegan(peeked, HandlerDone, events);
    events := [HandlerDone] + events;
    DrainBegan(d, PeekDone, events);
    events := [PeekDone] + events;
  }

  /** A drainer whose commands are all answered runs the handler once for every message that waits, in
      the order in which they were pushed, and leaves the list empty. */
  lemma {:induction false} DrainsAll(d: Drain) returns (events: seq<DrainEvent>)
    requires d.stage.Between? && d.own == 0
    ensures DrainPossible(d, events)
    ensures var r := DrainRun(d, events);
      && r.list == [] && r.handled == d.handled + EachOf(d.list, |d.popped|)
      && Messages(r.popped) == Messages(d.popped) + d.list && r.pushed == d.pushed && r.strays == d.strays
    decreases |d.list|
  {
    if |d.list| == 0 {
      events := [];
      assert d.handled + EachOf(d.list, |d.popped|) == d.handled && Messages(d.popped) + d.list == Messages(d.popped);
    } else {
      hide DrainPossible, DrainRun, DrainStep, DrainEnabled;
      var rest := DrainsAll(HeadDone(d));
      events := OneRound(d, rest);
      var head, tail := d.list[0], d.list[1..];
      assert HeadDone(d).popped[..|d.popped|] == d.popped;
      assert Messages(d.popped) + [head] + tail == Messages(d.popped) + d.list;
      assert d.handled + [HandlerRun(|d.popped|, head)] + EachOf(tail, |d.popped| + 1) == d.handled + EachOf(d.list, |d.popped|);
    }
  }

  /** An LPOP that is resent after it was carried out pops the next message, which nobody handled. */
  lemma {:induction false} ResentPopSkips(a: Message, b: Message) returns (events: seq<DrainEvent>)
    ensures DrainPossible(NEW_DRAIN, events)
    ensures var d := DrainRun(NEW_DRAIN, events);
      d.list == [] && d.pushed == [a, b] && d.handled == [HandlerRun(0, a)] && !HandledFirst(d)
  {
    var run := HandlerRun(0, a);
    var d0 := Drain([a, b], Between, [a, b], [], [], 0, 0);
    var d1 := Drain([a, b], Popping(0, a, false), [a, b], [], [run], 1, 0);
    var d3 := Drain([], Popping(0, a, true), [a, b], [Pop(a, 1), Pop(b, 1)], [run], 0, 0);
    var one, two := Drain([a], Between, [a], [], [], 0, 0), Drain([a, b], Between, [a, b], [], [], 0, 0);
    assert [] + [a] == [a] && [a] + [b] == [a, b] && [] + [run] == [run] && [a, b][1..] == [b] && [b][1..] == [];
    assert [] + [Pop(a, 1)] == [Pop(a, 1)] && [Pop(a, 1)] + [Pop(b, 1)] == [Pop(a, 1), Pop(b, 1)];
    assert DrainStep(NEW_DRAIN, Pushed(a)) == one && DrainStep(one, Pushed(b)) == two;
    var peeked := DrainStep(d0, PeekDone);
    var handled := DrainStep(peeked, HandlerDone);
    assert DrainStep(handled, PopWritten) == d1;
    var resent := DrainStep(d1, PopWritten);
    var once := DrainStep(resent, PopCarried);
    assert DrainStep(once, PopCarried) == d3;
    var rest: seq<DrainEvent> := [];
    DrainBegan(once, PopCarried, rest);
    rest := [PopCarried] + rest;
    DrainBegan(resent, PopCarried, rest);
    rest := [PopCarried] + rest;
    DrainBegan(d1, PopWritten, rest);
    rest := [PopWritten] + rest;
    DrainBegan(handled, PopWritten, rest);
    rest := [PopWritten] + rest;
    DrainBegan(peeked, HandlerDone, rest);
    rest := [HandlerDone] + rest;
    DrainBegan(d0, PeekDone, rest);
    rest := [PeekDone] + rest;
    DrainBegan(one, Pushed(b), rest);
    rest := [Pushed(b)] + rest;
    DrainBegan(NEW_DRAIN, Pushed(a), rest);
    events := [Pushed(a)] + rest;
    assert d3.popped[1].runs == 1 && !RanFor(d3.handled, d3.popped[1].runs, 1);
    assert !HandledFirst(d3);
  }

  // ---- The handler's log ---------------------------------------------------------------------------------

  /** A log without runs that repeat the one just before. */
  function WithoutRepeats(runs: seq<HandlerRun>): seq<HandlerRun> {
    if |runs| == 0 then []
    else
      var before, last := runs[..|runs| - 1], runs[|runs| - 1];
      if |before| > 0 && before[|before| - 1] == last then WithoutRepeats(before) else WithoutRepeats(before) + [last]
  }

  /** The runs for the first `count` pushes, one each. */
  function RunsFor(pushed: seq<Message>, count: nat): seq<HandlerRun>
    requires count <= |pushed|
  {
    if count == 0 then [] else RunsFor(pushed, count - 1) + [HandlerRun(count - 1, pushed[count - 1])]
  }

  /** How many pushes have been handled: those popped, and perhaps the head. */
  predicate HandledUpTo(d: Drain, count: nat) {
    && count <= |d.pushed| && |d.popped| <= count <= |d.popped| + 1
    && WithoutRepeats(d.handled) == RunsFor(d.pushed, count)
    && (|d.handled| > 0 <==> count > 0)
    && (count > 0 ==> d.handled[|d.handled| - 1] == HandlerRun(count - 1, d.pushed[count - 1]))
    && (d.stage.Peeked? ==> d.stage.at == |d.popped| || d.stage.at + 1 == count == |d.popped|)
    && (d.stage.Handled? || d.stage.Popping? ==> d.stage.at + 1 == count)
  }

  lemma {:induction false} RunsForMore(pushed: seq<Message>, more: Message, count: nat)
    requires count <= |pushed|
    ensures RunsFor(pushed + [more], count) == RunsFor(pushed, count)
    decreases count
  {
    if count > 0 {
      RunsForMore(pushed, more, count - 1);
    }
  }

  lemma {:induction false} WithoutRepeatsMore(runs: seq<HandlerRun>, last: HandlerRun)
    ensures WithoutRepeats(runs + [last]) ==
      if |runs| > 0 && runs[|runs| - 1] == last then WithoutRepeats(runs) else WithoutRepeats(runs) + [last]
  {
    assert (runs + [last])[..|runs|] == runs;
  }

  lemma {:induction false} PopCounts(d: Drain, count: nat)
    requires DrainInv(d) && HandledUpTo(d, count) && (|d.list| == 0 || HeadIsHandled(d))
    ensures HandledUpTo(PopHead(d), count)
  {
  }

  lemma {:induction false} HandlerCounts(d: Drain, count: nat)
    requires DrainInv(d) && d.stage.Peeked? && HandledUpTo(d, count)
    ensures HandledUpTo(DrainStep(d, HandlerDone), d.stage.at + 1)
  {
    WithoutRepeatsMore(d.handled, HandlerRun(d.stage.at, d.stage.message));
  }

  lemma {:induction false} CountStep(d: Drain, e: DrainEvent, count: nat) returns (next: nat)
    requires DrainInv(d) && DrainEnabled(d, e) && HandledUpTo(d, count) && CleanPop(d, e)
    ensures HandledUpTo(DrainStep(d, e), next)
  {
    hide WithoutRepeats, RunsFor;
    next := count;
    match e
    case Pushed(message) => RunsForMore(d.pushed, message, count);
    case HandlerDone =>
      HandlerCounts(d, count);
      next := d.stage.at + 1;
    case PopCarried => PopCounts(d, count);
    case StrayCarried => PopCounts(d, count);
    case PeekDone => assert |d.popped| < |d.pushed|;
    case _ =>
  }

  lemma {:induction false} CountRun(d: Drain, events: seq<DrainEvent>, count: nat) returns (final: nat)
    requires DrainInv(d) && DrainPossible(d, events) && HandledUpTo(d, count) && PopsClean(d, events)
    ensures HandledUpTo(DrainRun(d, events), final)
    decreases |events|
  {
    final := count;
    if |events| > 0 {
      DrainStepKeeps(d, events[0]);
      final := CountStep(d, events[0], count);
      final := CountRun(DrainStep(d, events[0]), events[1..], final);
    }
  }

  /** The handler's log without adjacent repeats is the pushed log up to the head of the queue, with or
      without it. */
  predicate LogFollows(d: Drain) {
    && |d.popped| <= |d.pushed|
    && (WithoutRepeats(d.handled) == RunsFor(d.pushed, |d.popped|)
        || (|d.popped| < |d.pushed| && WithoutRepeats(d.handled) == RunsFor(d.pushed, |d.popped| + 1)))
  }

  predicate LogFollowsAll(d: Drain, events: seq<DrainEvent>)
    requires DrainPossible(d, events)
    decreases |events|
  {
    LogFollows(d) && (|events| == 0 || LogFollowsAll(DrainStep(d, events[0]), events[1..]))
  }

  /** As long as pops are clean the log follows, wherever drainers crashed and were replaced. */
  lemma {:induction false} AtLeastOnceInOrder(events: seq<DrainEvent>)
    requires DrainPossible(NEW_DRAIN, events) && PopsClean(NEW_DRAIN, events)
    ensures LogFollows(DrainRun(NEW_DRAIN, events))
  {
    assert HandledUpTo(NEW_DRAIN, 0);
    DrainRunKeeps(NEW_DRAIN, events);
    var count := CountRun(NEW_DRAIN, events, 0);
    assert count == |DrainRun(NEW_DRAIN, events).popped| || count == |DrainRun(NEW_DRAIN, events).popped| + 1;
  }

  lemma {:induction false} RunsForLength(pushed: seq<Message>, count: nat)
    requires count <= |pushed|
    ensures |RunsFor(pushed, count)| == count
    decreases count
  {
    if count > 0 {
      RunsForLength(pushed, count - 1);
    }
  }

  /** The first pop that is not clean leaves the log behind. */
  lemma {:induction false} UncleanFallsBehind(d: Drain, e: DrainEvent, count: nat)
    requires DrainInv(d) && DrainEnabled(d, e) && HandledUpTo(d, count) && !CleanPop(d, e)
    ensures !LogFollows(DrainStep(d, e))
  {
    var r := DrainStep(d, e);
    RunsForLength(d.pushed, count);
    RunsForLength(r.pushed, |r.popped|);
    if |r.popped| < |r.pushed| {
      RunsForLength(r.pushed, |r.popped| + 1);
    }
  }

  lemma {:induction false} LogFollowsRun(d: Drain, events: seq<DrainEvent>, count: nat)
    requires DrainInv(d) && DrainPossible(d, events) && HandledUpTo(d, count)
    ensures LogFollowsAll(d, events) <==> PopsClean(d, events)
    decreases |events|
  {
    hide LogFollows;
    assert LogFollows(d) by {
      UpToFollows(d, count);
    }
    if |events| > 0 {
      if CleanPop(d, events[0]) {
        DrainStepKeeps(d, events[0]);
        var next := CountStep(d, events[0], count);
        LogFollowsRun(DrainStep(d, events[0]), events[1..], next);
      } else {
        UncleanFallsBehind(d, events[0], count);
      }
    }
  }

  lemma UpToFollows(d: Drain, count: nat)
    requires DrainInv(d) && HandledUpTo(d, count)
    ensures LogFollows(d)
  {
    assert count == |d.popped| || count == |d.popped| + 1;
  }

  /** The condition is exact: in every state of a run the log follows, if and only if the pops are
      clean. */
  lemma {:induction false} AtLeastOnceIff(events: seq<DrainEvent>)
    requires DrainPossible(NEW_DRAIN, events)
    ensures LogFollowsAll(NEW_DRAIN, events) <==> PopsClean(NEW_DRAIN, events)
  {
    LogFollowsRun(NEW_DRAIN, events, 0);
  }
}
