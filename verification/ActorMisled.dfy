/** How a process that did not hear of a SET NX of its own comes to report a loss of its own key,
    though it hears of everything from then on. */
module ActorMisled {
  import opened Text
  import opened ActorLock
  import opened ActorLoss

  /** It can come to that without another SET NX going unheard. */
  ghost predicate CanBeMisled(w: World, i: nat) {
    exists later :: Possible(w, later) && AllHeard(w, later, i) && ReportsFalsely(Run(w, later), i)
  }

  /** The process's loop runs, and it may still report a loss. */
  predicate Watches(w: World, i: nat) {
    Inv(w) && i in w.instances && w.instances[i].stage.Running? && !w.instances[i].lost
  }

  lemma {:induction false} Now(w: World, i: nat)
    requires ReportsFalsely(w, i)
    ensures CanBeMisled(w, i)
  {
    assert Possible(w, []) && AllHeard(w, [], i) && Run(w, []) == w;
  }

  lemma {:induction false} Before(w: World, e: Event, i: nat)
    requires Enabled(w, e) && Heard(w, e, i) && CanBeMisled(Step(w, e), i)
    ensures CanBeMisled(w, i)
  {
    var later :| Possible(Step(w, e), later) && AllHeard(Step(w, e), later, i) && ReportsFalsely(Run(Step(w, e), later), i);
    Began(w, e, later);
    assert ([e] + later)[1..] == later;
    assert AllHeard(w, [e] + later, i);
  }

  // ---- The key is its own --------------------------------------------------------------------------------

  /** A SET NX is refused while the key is the process's own. */
  lemma {:induction false} CarriedMisleads(w: World, i: nat, copy: nat)
    requires Watches(w, i) && Owner(w) == Some(i) && Awaits(w, w.instances[i].beat, Acquire)
    requires copy < |w.wire| && w.wire[copy] == w.instances[i].beat.number
    ensures CanBeMisled(w, i)
  {
    assert InstanceFine(w.instances[i], i, w.commands, w.minted);
    Now(Step(w, Carried(copy)), i);
    Before(w, Carried(copy), i);
  }

  lemma {:induction false} AskingMisleads(w: World, i: nat)
    requires Watches(w, i) && Owner(w) == Some(i) && Awaits(w, w.instances[i].beat, Acquire)
    requires var beat := w.instances[i].beat; false in beat.results || beat.results == {} || beat.number in w.wire
    ensures CanBeMisled(w, i)
  {
    var beat := w.instances[i].beat;
    if false in beat.results {
      Now(w, i);
    } else if beat.number in w.wire {
      var copy :| 0 <= copy < |w.wire| && w.wire[copy] == beat.number;
      CarriedMisleads(w, i, copy);
    } else {
      StepKeeps(w, At(i, BeatWritten));
      CarriedMisleads(Step(w, At(i, BeatWritten)), i, |w.wire|);
      Before(w, At(i, BeatWritten), i);
    }
  }

  /** A renewal was refused though the key is the process's own: it asks for the lock afresh. */
  lemma {:induction false} RefusedMisleads(w: World, i: nat)
    requires Watches(w, i) && Owner(w) == Some(i) && Awaits(w, w.instances[i].beat, Renew) && false in w.instances[i].beat.results
    ensures CanBeMisled(w, i)
  {
    StepKeeps(w, At(i, BeatAnswered(false)));
    AskingMisleads(Step(w, At(i, BeatAnswered(false))), i);
    Before(w, At(i, BeatAnswered(false)), i);
  }

  /** The next beat's renewal of another token is refused. */
  lemma {:induction false} RenewingMisleads(w: World, i: nat)
    requires Watches(w, i) && Owner(w) == Some(i) && Awaits(w, w.instances[i].beat, Renew)
    requires KeyToken(w) != TokenOf(w, w.instances[i].beat)
    ensures CanBeMisled(w, i)
  {
    var written := Step(w, At(i, BeatWritten));
    StepKeeps(w, At(i, BeatWritten));
    StepKeeps(written, Carried(|w.wire|));
    RefusedMisleads(Step(written, Carried(|w.wire|)), i);
    Before(written, Carried(|w.wire|), i);
    Before(w, At(i, BeatWritten), i);
  }

  lemma {:induction false} RestingMisleads(w: World, i: nat)
    requires Watches(w, i) && Owner(w) == Some(i) && w.instances[i].beat.Nothing? && w.instances[i].token != KeyToken(w)
    ensures CanBeMisled(w, i)
  {
    StepKeeps(w, At(i, BeatDue));
    if w.instances[i].token.Some? {
      RenewingMisleads(Step(w, At(i, BeatDue)), i);
    } else {
      AskingMisleads(Step(w, At(i, BeatDue)), i);
    }
    Before(w, At(i, BeatDue), i);
  }

  /** A process that does not know that the key is its own. */
  lemma {:induction false} UnknowingMisleads(w: World, i: nat)
    requires Watches(w, i) && Owner(w) == Some(i) && !Knowing(w, w.instances[i])
    ensures CanBeMisled(w, i)
  {
    var p := w.instances[i];
    assert InstanceFine(p, i, w.commands, w.minted);
    if p.beat.Nothing? {
      RestingMisleads(w, i);
    } else if Awaits(w, p.beat, Renew) {
      if false in p.beat.results {
        RefusedMisleads(w, i);
      } else {
        StepKeeps(w, At(i, BeatFailed));
        RestingMisleads(Step(w, At(i, BeatFailed)), i);
        Before(w, At(i, BeatFailed), i);
      }
    } else if true in p.beat.results && false !in p.beat.results {
      OnlyTrue(p.beat.results);
      StepKeeps(w, At(i, BeatAnswered(true)));
      RestingMisleads(Step(w, At(i, BeatAnswered(true))), i);
      Before(w, At(i, BeatAnswered(true)), i);
    } else {
      NoneOrFalse(p.beat.results);
      AskingMisleads(w, i);
    }
  }

  lemma OnlyTrue(results: set<bool>)
    requires true in results && false !in results
    ensures results == {true}
  {
    forall ok | ok in results
      ensures ok
    {
    }
  }

  lemma NoneOrFalse(results: set<bool>)
    requires true in results ==> false in results
    ensures results == {} || false in results
  {
    if false !in results {
      forall ok
        ensures ok !in results
      {
        assert ok == true || ok == false;
      }
    }
  }

  // ---- A copy is still to come ----------------------------------------------------------------------------

  /** The key is broken and the copy takes it. */
  lemma {:induction false} StrayTakes(w: World, i: nat, copy: nat)
    requires Watches(w, i) && w.key.None? && copy < |w.wire| && AcquireOf(w, w.wire[copy], i)
    ensures var taken := Step(w, Carried(copy));
      && Watches(taken, i) && Owner(taken) == Some(i) && KeyToken(taken) == Some(w.commands[w.wire[copy]].token)
      && taken.commands == w.commands && taken.wire == w.wire[..copy] + w.wire[copy + 1..]
      && taken.instances[i] == w.instances[i].(main := Result(w.instances[i].main, w.wire[copy], true),
                                               beat := Result(w.instances[i].beat, w.wire[copy], true))
  {
    StepKeeps(w, Carried(copy));
    assert CommandFine(w.commands[w.wire[copy]], w.minted);
  }

  /** The next beat finds the key gone; while it asks afresh, the copy takes the key. */
  lemma {:induction false} StrayMisleadsResting(w: World, i: nat, copy: nat)
    requires Watches(w, i) && w.key.None? && w.instances[i].beat.Nothing? && copy < |w.wire| && AcquireOf(w, w.wire[copy], i)
    ensures CanBeMisled(w, i)
  {
    var due := Step(w, At(i, BeatDue));
    StepKeeps(w, At(i, BeatDue));
    if w.instances[i].token.None? {
      StrayTakes(due, i, copy);
      AskingMisleads(Step(due, Carried(copy)), i);
      Before(due, Carried(copy), i);
    } else {
      RenewalMeetsStray(due, i, copy);
    }
    Before(w, At(i, BeatDue), i);
  }

  lemma {:induction false} RenewalMeetsStray(w: World, i: nat, copy: nat)
    requires Watches(w, i) && w.key.None? && Awaits(w, w.instances[i].beat, Renew) && copy < |w.wire| && AcquireOf(w, w.wire[copy], i)
    ensures CanBeMisled(w, i)
  {
    var written := Step(w, At(i, BeatWritten));
    StepKeeps(w, At(i, BeatWritten));
    var refused := Step(written, Carried(|w.wire|));
    StepKeeps(written, Carried(|w.wire|));
    assert refused.wire == w.wire;
    StrayTakes(refused, i, copy);
    RefusedMisleads(Step(refused, Carried(copy)), i);
    Before(refused, Carried(copy), i);
    Before(written, Carried(|w.wire|), i);
    Before(w, At(i, BeatWritten), i);
  }

  predicate AnotherCopy(w: World, copy: nat, number: nat) {
    exists d :: 0 <= d < |w.wire| && d != copy && w.wire[d] == number
  }

  /** The heartbeat asks for the lock and may hear that it was refused, while the copy takes the key. */
  lemma {:induction false} StrayMisleadsAsking(w: World, i: nat, copy: nat)
    requires Watches(w, i) && w.key.None? && copy < |w.wire| && AcquireOf(w, w.wire[copy], i)
    requires Awaits(w, w.instances[i].beat, Acquire)
    requires false in w.instances[i].beat.results || AnotherCopy(w, copy, w.instances[i].beat.number)
    ensures CanBeMisled(w, i)
  {
    var beat, taken := w.instances[i].beat, Step(w, Carried(copy));
    StrayTakes(w, i, copy);
    if false !in beat.results {
      var d :| 0 <= d < |w.wire| && d != copy && w.wire[d] == beat.number;
      assert taken.wire[if d < copy then d else d - 1] == w.wire[d];
    }
    AskingMisleads(taken, i);
    Before(w, Carried(copy), i);
  }

  /** Any SET NX that may be carried out without the process hearing of it. */
  lemma {:induction false} StrayMisleads(w: World, i: nat, copy: nat)
    requires Watches(w, i) && w.key.None? && copy < |w.wire| && Stray(w, i, copy)
    ensures CanBeMisled(w, i)
  {
    var p := w.instances[i];
    assert InstanceFine(p, i, w.commands, w.minted);
    if p.beat.Nothing? {
      StrayMisleadsResting(w, i, copy);
    } else if Awaits(w, p.beat, Acquire) && (false in p.beat.results || AnotherCopy(w, copy, p.beat.number)) {
      StrayMisleadsAsking(w, i, copy);
    } else {
      var e := At(i, if Awaits(w, p.beat, Acquire) && true in p.beat.results then BeatAnswered(true) else BeatFailed);
      StepKeeps(w, e);
      if true !in p.beat.results {
        NoneOrFalse(p.beat.results);
      }
      StrayMisleadsResting(Step(w, e), i, copy);
      Before(w, e, i);
    }
  }

  /** The condition is exact: a process whose loop runs can come to report a loss of its own key,
      though from now on no SET NX of its goes unheard, if and only if one did: it succeeded, or may
      still be carried out, without the process hearing of it. */
  lemma {:induction false} MisledIff(start: World, events: seq<Event>, w: World, i: nat)
    requires Reached(start, events, w) && i in w.instances && w.instances[i].stage.Running? && !w.instances[i].lost
    ensures CanBeMisled(w, i) <==> Unheard(w, i)
  {
    RunKeeps(start, events);
    AwareIffNothingUnheard(w, i);
    if !Unheard(w, i) {
      forall later | Possible(w, later) && AllHeard(w, later, i)
        ensures !ReportsFalsely(Run(w, later), i)
      {
        RunAware(w, later, i);
        AwareReportsTruly(Run(w, later), i);
      }
    } else if Owner(w) == Some(i) && !Knowing(w, w.instances[i]) {
      UnknowingMisleads(w, i);
    } else {
      var copy :| 0 <= copy < |w.wire| && Stray(w, i, copy);
      StepKeeps(w, Broken);
      StrayMisleads(Step(w, Broken), i, copy);
      Before(w, Broken, i);
    }
  }
}
