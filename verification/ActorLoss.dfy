/** When a loss that a heartbeat reports is true. A process is misled by a SET NX of its own that
    succeeded, or is still to be carried out, without the process hearing of it: that key it takes
    for another's. */
module ActorLoss {
  import opened Text
  import opened ActorLock

  // ---- A false report --------------------------------------------------------------------------------------

  predicate Awaits(w: World, waiting: Waiting, kind: Kind) {
    waiting.For? && waiting.number < |w.commands| && w.commands[waiting.number].kind == kind
  }

  /** The heartbeat is about to report a loss, for its SET NX was refused. */
  predicate Reports(w: World, i: nat) {
    Enabled(w, At(i, BeatAnswered(false))) && Awaits(w, w.instances[i].beat, Acquire)
  }

  /** And yet the key is the process's own. */
  predicate ReportsFalsely(w: World, i: nat) {
    Reports(w, i) && Owner(w) == Some(i)
  }

  // ---- What is not heard -----------------------------------------------------------------------------------

  predicate AwaitsUnanswered(waiting: Waiting, number: nat) {
    waiting.For? && waiting.number == number && waiting.results == {}
  }

  /** A copy on the wire is the only one of its command, and its process still waits for an answer. */
  predicate SoleAwaited(w: World, p: Instance, copy: nat)
    requires copy < |w.wire|
  {
    && (AwaitsUnanswered(p.main, w.wire[copy]) || AwaitsUnanswered(p.beat, w.wire[copy]))
    && forall d :: 0 <= d < |w.wire| && d != copy ==> w.wire[d] != w.wire[copy]
  }

  /** A SET NX of the process that may yet be carried out without the process hearing of it. */
  predicate Stray(w: World, i: nat, copy: nat)
    requires i in w.instances
  {
    copy < |w.wire| && AcquireOf(w, w.wire[copy], i) && !SoleAwaited(w, w.instances[i], copy)
  }

  function TokenOf(w: World, waiting: Waiting): Option<Token> {
    if waiting.For? && waiting.number < |w.commands| then Some(w.commands[waiting.number].token) else None
  }

  function KeyToken(w: World): Option<Token> {
    if w.key.Some? then Some(w.key.value.token) else None
  }

  /** The process waits for a SET NX that put the key's token there, and will hear just that. */
  predicate Took(w: World, waiting: Waiting) {
    Awaits(w, waiting, Acquire) && waiting.results == {true} && KeyToken(w) == TokenOf(w, waiting)
  }

  /** The process knows the key's token, and is not about to forget it, or it will hear that it took
      the key. */
  predicate Knowing(w: World, p: Instance) {
    || (p.token == KeyToken(w) && !(Awaits(w, p.beat, Renew) && false in p.beat.results))
    || Took(w, p.main) || Took(w, p.beat)
  }

  /** A SET NX of the process succeeded, or may still be carried out, without the process hearing of
      it. */
  predicate Unheard(w: World, i: nat)
    requires i in w.instances
  {
    (Owner(w) == Some(i) && !Knowing(w, w.instances[i])) || exists copy :: 0 <= copy < |w.wire| && Stray(w, i, copy)
  }

  predicate Unwritten(w: World, waiting: Waiting) {
    waiting.For? && waiting.results == {} && waiting.number !in w.wire
  }

  /** The process's SET NX are written once, and none is given up once it was written. Its other
      commands, and other processes, may do as they like. */
  predicate Heard(w: World, e: Event, i: nat) {
    e.At? && e.i == i && i in w.instances ==>
      match e.act
      case MainWritten => Awaits(w, w.instances[i].main, Acquire) ==> Unwritten(w, w.instances[i].main)
      case MainFailed => Awaits(w, w.instances[i].main, Acquire) ==> Unwritten(w, w.instances[i].main)
      case BeatWritten => Awaits(w, w.instances[i].beat, Acquire) ==> Unwritten(w, w.instances[i].beat)
      case BeatFailed => Awaits(w, w.instances[i].beat, Acquire) ==> Unwritten(w, w.instances[i].beat)
      case _ => true
  }

  predicate AllHeard(w: World, events: seq<Event>, i: nat)
    requires Possible(w, events)
    decreases |events|
  {
    |events| == 0 || (Heard(w, events[0], i) && AllHeard(Step(w, events[0]), events[1..], i))
  }

  // ---- A process that hears of everything -----------------------------------------------------------------

  /** The loop is over and its heartbeat too: the process asks for nothing more. */
  predicate Over(p: Instance) {
    p.stage in {Releasing, Retrying, Finished} && p.beat.Nothing?
  }

  /** How a release fits with a beat under way. */
  predicate ReleaseFine(w: World, p: Instance) {
    Awaits(w, p.main, Release) ==>
      && (p.main.results != {} ==> KeyToken(w) != TokenOf(w, p.main))
      && (Awaits(w, p.beat, Acquire) ==> TokenOf(w, p.main) != TokenOf(w, p.beat))
      && (p.beat.For? ==> p.token.None? || p.token == TokenOf(w, p.main))
  }

  predicate NoStray(w: World, i: nat)
    requires i in w.instances
  {
    forall copy :: 0 <= copy < |w.wire| ==> !Stray(w, i, copy)
  }

  predicate Aware(w: World, i: nat) {
    && Inv(w) && i in w.instances && NoStray(w, i) && ReleaseFine(w, w.instances[i])
    && (Owner(w) == Some(i) ==> Over(w.instances[i]) || Knowing(w, w.instances[i]))
  }

  predicate Informed(w: World, i: nat)
    requires i in w.instances
  {
    ReleaseFine(w, w.instances[i]) && (Owner(w) == Some(i) ==> Over(w.instances[i]) || Knowing(w, w.instances[i]))
  }

  // What the process itself does.

  lemma MainInformed(w: World, i: nat, act: Act)
    requires Aware(w, i) && Enabled(w, At(i, act)) && Heard(w, At(i, act), i) && OfMain(act)
    ensures Informed(Acted(w, i, act), i)
  {
    hide NotesFine;
    assert InstanceFine(w.instances[i], i, w.commands, w.minted);
    assert w.instances[i].main.For? ==> CommandFine(w.commands[w.instances[i].main.number], w.minted);
  }

  lemma BeatInformed(w: World, i: nat, act: Act)
    requires Aware(w, i) && Enabled(w, At(i, act)) && Heard(w, At(i, act), i) && !OfMain(act)
    ensures Informed(Acted(w, i, act), i)
  {
    hide NotesFine;
    assert InstanceFine(w.instances[i], i, w.commands, w.minted);
    assert w.instances[i].main.For? ==> CommandFine(w.commands[w.instances[i].main.number], w.minted);
  }

  lemma ActNoStray(w: World, i: nat, act: Act)
    requires Aware(w, i) && Enabled(w, At(i, act)) && Heard(w, At(i, act), i)
    ensures NoStray(Acted(w, i, act), i)
  {
    var w' := Acted(w, i, act);
    ActInstances(w, i, act);
    assert InstanceFine(w.instances[i], i, w.commands, w.minted);
    forall copy | 0 <= copy < |w'.wire|
      ensures !Stray(w', i, copy)
    {
      if copy < |w.wire| {
        assert w'.wire[copy] == w.wire[copy] && !Stray(w, i, copy);
      }
    }
  }

  lemma ActAware(w: World, i: nat, act: Act)
    requires Aware(w, i) && Enabled(w, At(i, act)) && Heard(w, At(i, act), i)
    ensures Aware(Acted(w, i, act), i)
  {
    hide Acted, NoStray, ReleaseFine, Knowing, Heard;
    StepKeeps(w, At(i, act));
    ActInstances(w, i, act);
    ActNoStray(w, i, act);
    if OfMain(act) {
      MainInformed(w, i, act);
    } else {
      BeatInformed(w, i, act);
    }
  }

  // What happens elsewhere.

  /** The process is as it was, and the key's token too, or it is not the process's. */
  lemma StillInformed(w: World, w': World, i: nat)
    requires Inv(w) && i in w.instances && i in w'.instances && w'.instances[i] == w.instances[i] && Informed(w, i)
    requires w.commands <= w'.commands && (KeyToken(w') == KeyToken(w) || Owner(w') != Some(i))
    ensures Informed(w', i)
  {
    assert InstanceFine(w.instances[i], i, w.commands, w.minted);
    assert w.instances[i].main.For? ==> CommandFine(w.commands[w.instances[i].main.number], w.minted);
  }

  lemma ActOthers(w: World, j: nat, act: Act, i: nat)
    requires Inv(w) && Enabled(w, At(j, act)) && i in w.instances && j != i
    ensures var w' := Acted(w, j, act);
      && i in w'.instances && w'.instances[i] == w.instances[i] && w.commands <= w'.commands && w'.key == w.key
      && w.wire <= w'.wire && forall copy :: |w.wire| <= copy < |w'.wire| ==> !AcquireOf(w', w'.wire[copy], i)
  {
    assert InstanceFine(w.instances[j], j, w.commands, w.minted);
  }

  /** Copies of other processes come. */
  lemma StillNoStray(w: World, w': World, i: nat)
    requires Inv(w) && i in w.instances && NoStray(w, i) && i in w'.instances && w'.instances[i] == w.instances[i]
    requires w.commands <= w'.commands && w.wire <= w'.wire
    requires forall copy :: |w.wire| <= copy < |w'.wire| ==> !AcquireOf(w', w'.wire[copy], i)
    ensures NoStray(w', i)
  {
    forall copy | 0 <= copy < |w'.wire|
      ensures !Stray(w', i, copy)
    {
      if copy < |w.wire| {
        assert w'.wire[copy] == w.wire[copy] && !Stray(w, i, copy);
      }
    }
  }

  lemma OtherActAware(w: World, j: nat, act: Act, i: nat)
    requires Aware(w, i) && Enabled(w, At(j, act)) && j != i
    ensures Aware(Acted(w, j, act), i)
  {
    hide Acted, ReleaseFine, Knowing, NoStray;
    StepKeeps(w, At(j, act));
    ActOthers(w, j, act, i);
    StillInformed(w, Acted(w, j, act), i);
    StillNoStray(w, Acted(w, j, act), i);
  }

  // A copy that is carried out.

  lemma CarryNoStray(w: World, copy: nat, i: nat)
    requires Aware(w, i) && Enabled(w, Carried(copy))
    ensures NoStray(CarryOut(w, copy), i)
  {
    hide Execute;
    var number, w' := w.wire[copy], CarryOut(w, copy);
    forall c | 0 <= c < |w'.wire|
      ensures !Stray(w', i, c)
    {
      var c' := if c < copy then c else c + 1;
      assert w'.wire[c] == w.wire[c'] && !Stray(w, i, c');
      assert forall d :: 0 <= d < |w'.wire| ==> w'.wire[d] == w.wire[if d < copy then d else d + 1];
      assert AcquireOf(w', w'.wire[c], i) ==> w.wire[c'] != w.wire[copy];
    }
  }

  lemma OtherCarryInformed(w: World, copy: nat, i: nat)
    requires Aware(w, i) && Enabled(w, Carried(copy)) && w.commands[w.wire[copy]].owner != i
    ensures Informed(CarryOut(w, copy), i)
  {
    assert CommandFine(w.commands[w.wire[copy]], w.minted);
    hide ReleaseFine, Knowing;
    StillInformed(w, CarryOut(w, copy), i);
  }

  lemma FirstResults(p: Instance, number: nat, ok: bool)
    ensures AwaitsUnanswered(p.main, number) ==> Result(p.main, number, ok).results == {ok}
    ensures AwaitsUnanswered(p.beat, number) ==> Result(p.beat, number, ok).results == {ok}
  {
    var none: set<bool> := {};
    assert none + {ok} == {ok};
  }

  lemma AcquireInformed(w: World, copy: nat, i: nat)
    requires Aware(w, i) && Enabled(w, Carried(copy)) && AcquireOf(w, w.wire[copy], i)
    ensures Informed(CarryOut(w, copy), i)
  {
    var number := w.wire[copy];
    assert CommandFine(w.commands[number], w.minted) && InstanceFine(w.instances[i], i, w.commands, w.minted);
    assert !Stray(w, i, copy);
    FirstResults(w.instances[i], number, Carry(w, number).ok);
  }

  lemma RenewInformed(w: World, copy: nat, i: nat)
    requires Aware(w, i) && Enabled(w, Carried(copy)) && w.commands[w.wire[copy]].owner == i && w.commands[w.wire[copy]].kind.Renew?
    ensures Informed(CarryOut(w, copy), i)
  {
    assert CommandFine(w.commands[w.wire[copy]], w.minted) && InstanceFine(w.instances[i], i, w.commands, w.minted);
  }

  lemma ReleaseInformed(w: World, copy: nat, i: nat)
    requires Aware(w, i) && Enabled(w, Carried(copy)) && w.commands[w.wire[copy]].owner == i && w.commands[w.wire[copy]].kind.Release?
    ensures Informed(CarryOut(w, copy), i)
  {
    assert CommandFine(w.commands[w.wire[copy]], w.minted) && InstanceFine(w.instances[i], i, w.commands, w.minted);
  }

  lemma CarryAware(w: World, copy: nat, i: nat)
    requires Aware(w, i) && Enabled(w, Carried(copy))
    ensures Aware(CarryOut(w, copy), i)
  {
    hide NoStray, ReleaseFine, Knowing, CarryOut;
    StepKeeps(w, Carried(copy));
    CarryNoStray(w, copy, i);
    if w.commands[w.wire[copy]].owner != i {
      OtherCarryInformed(w, copy, i);
    } else {
      match w.commands[w.wire[copy]].kind
      case Acquire => AcquireInformed(w, copy, i);
      case Renew => RenewInformed(w, copy, i);
      case Release => ReleaseInformed(w, copy, i);
    }
    CarryKeepsInstances(w, copy);
  }

  lemma CarryKeepsInstances(w: World, copy: nat)
    requires Enabled(w, Carried(copy))
    ensures CarryOut(w, copy).instances.Keys == w.instances.Keys
  {
  }

  lemma StepAware(w: World, e: Event, i: nat)
    requires Aware(w, i) && Enabled(w, e) && Heard(w, e, i)
    ensures Aware(Step(w, e), i)
  {
    hide Acted, CarryOut, ReleaseFine, Knowing, Heard;
    match e
    case At(j, act) =>
      if j == i {
        ActAware(w, i, act);
      } else {
        OtherActAware(w, j, act, i);
      }
    case Carried(copy) => CarryAware(w, copy, i);
    case _ =>
      StepKeeps(w, e);
      StillInformed(w, Step(w, e), i);
      StillNoStray(w, Step(w, e), i);
  }

  lemma {:induction false} RunAware(w: World, events: seq<Event>, i: nat)
    requires Aware(w, i) && Possible(w, events) && AllHeard(w, events, i)
    ensures Aware(Run(w, events), i)
    decreases |events|
  {
    if |events| > 0 {
      StepAware(w, events[0], i);
      RunAware(Step(w, events[0]), events[1..], i);
    }
  }

  /** A process that hears of everything reports no loss of a key that is its own. */
  lemma AwareReportsTruly(w: World, i: nat)
    requires Aware(w, i)
    ensures !ReportsFalsely(w, i)
  {
    assert InstanceFine(w.instances[i], i, w.commands, w.minted);
  }

  /** While its loop runs, to hear of everything is to have nothing unheard. */
  lemma AwareIffNothingUnheard(w: World, i: nat)
    requires Inv(w) && i in w.instances && w.instances[i].stage.Running?
    ensures Aware(w, i) <==> !Unheard(w, i)
  {
    assert InstanceFine(w.instances[i], i, w.commands, w.minted);
  }

  /** Over every run in which no SET NX of the process goes unheard, a loss that it reports is true:
      the key is not its own when it reports. Other processes, and its other commands, may have lost
      any answer. */
  lemma {:induction false} ReportedLossIsTrue(start: World, events: seq<Event>, w: World, i: nat)
    requires Reached(start, events, w) && i in start.instances && AllHeard(start, events, i)
    ensures !ReportsFalsely(w, i)
  {
    assert Aware(start, i);
    RunAware(start, events, i);
    AwareReportsTruly(w, i);
  }
}
