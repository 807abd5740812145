/** Runs of one process that lost answers lead astray. */
module ActorSurprises {
  import opened Text
  import opened ActorLock

  const FIRST: Token := Token(0, 0)
  const SECOND: Token := Token(0, 1)
  const TAKE: Command := Command(0, Acquire, FIRST)

  /** One process alone, with this key and this instance. */
  function Alone(key: Option<Held>, p: Instance, commands: seq<Command>, wire: seq<nat>, minted: nat): World {
    World(key, map[0 := p], commands, wire, minted, 0, 1000)
  }

  function New(): World {
    Alone(None, NEW_INSTANCE, [], [], 0)
  }

  function Asked(): World {
    Alone(None, Instance(None, Acquiring, For(0, {}), Nothing, false, []), [TAKE], [], 1)
  }

  function AskedOnWire(): World {
    Asked().(wire := [0])
  }

  function Holding(): Option<Held> {
    Some(Held(FIRST, Some(1000)))
  }

  /** The loop runs and owns the key. */
  function Ran(): World {
    Alone(Holding(), Instance(Some(FIRST), Running, Nothing, Nothing, false, []), [TAKE], [], 1)
  }

  /** What follows a written SET NX. */
  lemma {:induction false} AsksFirst(rest: seq<Event>)
    requires Possible(AskedOnWire(), rest)
    ensures var events := [At(0, LoopStarted)] + ([At(0, MainWritten)] + rest);
      Possible(New(), events) && Run(New(), events) == Run(AskedOnWire(), rest)
  {
    assert [] + [TAKE] == [TAKE] && [] + [0] == [0];
    assert Step(New(), At(0, LoopStarted)) == Asked() && Step(Asked(), At(0, MainWritten)) == AskedOnWire();
    Began(Asked(), At(0, MainWritten), rest);
    Began(New(), At(0, LoopStarted), [At(0, MainWritten)] + rest);
  }

  /** What follows an acquisition. */
  lemma {:induction false} Runs(rest: seq<Event>) returns (events: seq<Event>)
    requires Possible(Ran(), rest)
    ensures Possible(New(), events) && Run(New(), events) == Run(Ran(), rest)
    ensures events == [At(0, LoopStarted), At(0, MainWritten), Carried(0), At(0, MainAnswered(true))] + rest
  {
    var none: set<bool> := {};
    var answered := Alone(Holding(), Instance(None, Acquiring, For(0, {true}), Nothing, false, []), [TAKE], [], 1);
    assert none + {true} == {true} && [0][..0] + [0][1..] == [];
    assert Step(AskedOnWire(), Carried(0)) == answered && Step(answered, At(0, MainAnswered(true))) == Ran();
    Began(answered, At(0, MainAnswered(true)), rest);
    Began(AskedOnWire(), Carried(0), [At(0, MainAnswered(true))] + rest);
    AsksFirst([Carried(0)] + ([At(0, MainAnswered(true))] + rest));
    events := [At(0, LoopStarted)] + ([At(0, MainWritten)] + ([Carried(0)] + ([At(0, MainAnswered(true))] + rest)));
  }

  /** The process has ended and asked for nothing more, and owns the key. */
  predicate EndedOwning(w: World, i: nat) {
    Owner(w) == Some(i) && i in w.instances && w.instances[i].stage.Finished? && w.instances[i].main.Nothing?
  }

  /** An acquisition that timed out ends its loop; Redis carries it out later, the process owns the
      key, and nobody is left to release it. */
  lemma {:induction false} LateAcquireOwns() returns (events: seq<Event>)
    ensures Started(New()) && Possible(New(), events) && EndedOwning(Run(New(), events), 0)
  {
    var gone := Alone(None, Instance(None, Finished, Nothing, Nothing, false, []), [TAKE], [0], 1);
    var owns := Alone(Holding(), Instance(None, Finished, Nothing, Nothing, false, []), [TAKE], [], 1);
    assert [0][..0] + [0][1..] == [];
    assert Step(AskedOnWire(), At(0, MainFailed)) == gone && Step(gone, Carried(0)) == owns;
    Began(gone, Carried(0), []);
    Began(AskedOnWire(), At(0, MainFailed), [Carried(0)] + []);
    var rest := [At(0, MainFailed)] + ([Carried(0)] + []);
    AsksFirst(rest);
    events := [At(0, LoopStarted)] + ([At(0, MainWritten)] + rest);
  }

  const RENEWAL: Command := Command(0, Renew, FIRST)
  const RETAKE: Command := Command(0, Acquire, SECOND)

  /** The heartbeat asks afresh for a key that is gone, once or twice. */
  function Retaking(key: Option<Held>, results: set<bool>, wire: seq<nat>): World {
    Alone(key, Instance(None, Running, Nothing, For(2, results), false, []), [TAKE, RENEWAL, RETAKE], wire, 2)
  }

  function Renewing(results: set<bool>): World {
    Alone(None, Instance(Some(FIRST), Running, Nothing, For(1, results), false, []), [TAKE, RENEWAL], [], 1)
  }

  function HoldingAgain(): Option<Held> {
    Some(Held(SECOND, Some(1000)))
  }

  lemma {:induction false} WrittenTwice()
    ensures var asking, once := Retaking(None, {}, []), Retaking(None, {}, [2]);
      && Enabled(asking, At(0, BeatWritten)) && Step(asking, At(0, BeatWritten)) == once
      && Enabled(once, At(0, BeatWritten)) && Step(once, At(0, BeatWritten)) == Retaking(None, {}, [2, 2])
  {
    assert [] + [2] == [2] && [2] + [2] == [2, 2];
  }

  lemma {:induction false} RetakenTwice()
    ensures var twice, taken := Retaking(None, {}, [2, 2]), Retaking(HoldingAgain(), {true}, [2]);
      && Enabled(twice, Carried(0)) && Step(twice, Carried(0)) == taken
      && Enabled(taken, Carried(0)) && Step(taken, Carried(0)) == Retaking(HoldingAgain(), {true, false}, [])
  {
    var none: set<bool> := {};
    assert none + {true} == {true} && {true} + {false} == {true, false};
    assert [2, 2][..0] + [2, 2][1..] == [2] && [2][..0] + [2][1..] == [];
  }

  lemma {:induction false} RetakeReportsLoss()
    ensures var w := Retaking(HoldingAgain(), {true, false}, []);
      && Enabled(w, At(0, BeatAnswered(false))) && Owner(Step(w, At(0, BeatAnswered(false)))) == Some(0)
      && 0 in Step(w, At(0, BeatAnswered(false))).instances && Step(w, At(0, BeatAnswered(false))).instances[0].lost
  {
  }

  lemma {:induction false} ResentRefused()
    ensures var run := [At(0, BeatWritten)] + ([At(0, BeatWritten)] + ([Carried(0)] + ([Carried(0)] + ([At(0, BeatAnswered(false))] + []))));
      var w := Retaking(None, {}, []);
      Possible(w, run) && Owner(Run(w, run)) == Some(0) && 0 in Run(w, run).instances && Run(w, run).instances[0].lost
  {
    hide Enabled, Step, Owner;
    WrittenTwice();
    RetakenTwice();
    RetakeReportsLoss();
    var w1, w2, w3 := Retaking(None, {}, [2]), Retaking(None, {}, [2, 2]), Retaking(HoldingAgain(), {true}, [2]);
    var w4 := Retaking(HoldingAgain(), {true, false}, []);
    Began(w4, At(0, BeatAnswered(false)), []);
    Began(w3, Carried(0), [At(0, BeatAnswered(false))] + []);
    Began(w2, Carried(0), [Carried(0)] + ([At(0, BeatAnswered(false))] + []));
    Began(w1, At(0, BeatWritten), [Carried(0)] + ([Carried(0)] + ([At(0, BeatAnswered(false))] + [])));
    Began(Retaking(None, {}, []), At(0, BeatWritten), [At(0, BeatWritten)] + ([Carried(0)] + ([Carried(0)] + ([At(0, BeatAnswered(false))] + []))));
  }

  /** A heartbeat finds the key broken, and means to ask afresh. */
  lemma {:induction false} RenewalIsRefused()
    ensures var broken, due := Ran().(key := None), Renewing({});
      && Enabled(Ran(), Broken) && Step(Ran(), Broken) == broken
      && Enabled(broken, At(0, BeatDue)) && Step(broken, At(0, BeatDue)) == due
      && Enabled(due, At(0, BeatWritten)) && Step(due, At(0, BeatWritten)) == due.(wire := [1])
      && Enabled(due.(wire := [1]), Carried(0)) && Step(due.(wire := [1]), Carried(0)) == Renewing({false})
  {
    var none: set<bool> := {};
    assert none + {false} == {false} && [TAKE] + [RENEWAL] == [TAKE, RENEWAL] && [] + [1] == [1] && [1][..0] + [1][1..] == [];
  }

  lemma {:induction false} RefusedAsksAgain()
    ensures Enabled(Renewing({false}), At(0, BeatAnswered(false)))
    ensures Step(Renewing({false}), At(0, BeatAnswered(false))) == Retaking(None, {}, [])
  {
    assert [TAKE, RENEWAL] + [RETAKE] == [TAKE, RENEWAL, RETAKE];
  }

  /** Up to where a heartbeat asks afresh: the key was broken, and a renewal was refused. */
  lemma {:induction false} AsksAgain(rest: seq<Event>)
    requires Possible(Retaking(None, {}, []), rest)
    ensures var run := [Broken] + ([At(0, BeatDue)] + ([At(0, BeatWritten)] + ([Carried(0)] + ([At(0, BeatAnswered(false))] + rest))));
      Possible(Ran(), run) && Run(Ran(), run) == Run(Retaking(None, {}, []), rest)
  {
    hide Enabled, Step;
    RenewalIsRefused();
    RefusedAsksAgain();
    var broken, due, refused := Ran().(key := None), Renewing({}), Renewing({false});
    Began(refused, At(0, BeatAnswered(false)), rest);
    Began(due.(wire := [1]), Carried(0), [At(0, BeatAnswered(false))] + rest);
    Began(due, At(0, BeatWritten), [Carried(0)] + ([At(0, BeatAnswered(false))] + rest));
    Began(broken, At(0, BeatDue), [At(0, BeatWritten)] + ([Carried(0)] + ([At(0, BeatAnswered(false))] + rest)));
    Began(Ran(), Broken, [At(0, BeatDue)] + ([At(0, BeatWritten)] + ([Carried(0)] + ([At(0, BeatAnswered(false))] + rest))));
  }

  /** A SET NX that is resent after it was carried out is refused by the process's own token, and a
      loss is reported by the very owner. */
  lemma {:induction false} ResentAcquireReportsLoss() returns (events: seq<Event>)
    ensures Started(New()) && Possible(New(), events)
    ensures var w := Run(New(), events);
      Owner(w) == Some(0) && 0 in w.instances && w.instances[0].lost
  {
    ResentRefused();
    var rest := [At(0, BeatWritten)] + ([At(0, BeatWritten)] + ([Carried(0)] + ([Carried(0)] + ([At(0, BeatAnswered(false))] + []))));
    AsksAgain(rest);
    events := Runs([Broken] + ([At(0, BeatDue)] + ([At(0, BeatWritten)] + ([Carried(0)] + ([At(0, BeatAnswered(false))] + rest)))));
  }

  const ASKED_AGAIN: Command := Command(0, Acquire, Token(0, 2))

  /** The key is taken and the process does not know it; its heartbeat asks once more. */
  function Unaware(beat: Waiting, commands: seq<Command>, wire: seq<nat>, minted: nat): World {
    Alone(HoldingAgain(), Instance(None, Running, Nothing, beat, false, []), commands, wire, minted)
  }

  lemma {:induction false} RetakenUnheard()
    ensures var asked, all := [TAKE, RENEWAL, RETAKE], [TAKE, RENEWAL, RETAKE, ASKED_AGAIN];
      var due := Unaware(For(3, {}), all, [], 3);
      && Enabled(Retaking(None, {}, []), At(0, BeatWritten)) && Step(Retaking(None, {}, []), At(0, BeatWritten)) == Retaking(None, {}, [2])
      && Enabled(Retaking(None, {}, [2]), Carried(0)) && Step(Retaking(None, {}, [2]), Carried(0)) == Retaking(HoldingAgain(), {true}, [])
      && Enabled(Retaking(HoldingAgain(), {true}, []), At(0, BeatFailed))
      && Step(Retaking(HoldingAgain(), {true}, []), At(0, BeatFailed)) == Unaware(Nothing, asked, [], 2)
      && Enabled(Unaware(Nothing, asked, [], 2), At(0, BeatDue)) && Step(Unaware(Nothing, asked, [], 2), At(0, BeatDue)) == due
  {
    var none: set<bool> := {};
    assert none + {true} == {true} && [] + [2] == [2] && [2][..0] + [2][1..] == [];
    assert [TAKE, RENEWAL, RETAKE] + [ASKED_AGAIN] == [TAKE, RENEWAL, RETAKE, ASKED_AGAIN];
  }

  lemma {:induction false} OwnKeyRefuses()
    ensures var all := [TAKE, RENEWAL, RETAKE, ASKED_AGAIN];
      var due, told := Unaware(For(3, {}), all, [], 3), Unaware(For(3, {false}), all, [], 3);
      && Enabled(due, At(0, BeatWritten)) && Step(due, At(0, BeatWritten)) == Unaware(For(3, {}), all, [3], 3)
      && Enabled(Unaware(For(3, {}), all, [3], 3), Carried(0)) && Step(Unaware(For(3, {}), all, [3], 3), Carried(0)) == told
      && Enabled(told, At(0, BeatAnswered(false)))
      && var lost := Step(told, At(0, BeatAnswered(false)));
         Owner(lost) == Some(0) && 0 in lost.instances && lost.instances[0].lost
  {
    var none: set<bool> := {};
    assert none + {false} == {false} && [] + [3] == [3] && [3][..0] + [3][1..] == [];
  }

  const ASKS_ONCE_MORE: seq<Event> := [At(0, BeatDue), At(0, BeatWritten), Carried(0), At(0, BeatAnswered(false))]

  /** From the beat whose answer was lost. */
  lemma {:induction false} AsksOnceMore()
    ensures var unaware := Unaware(Nothing, [TAKE, RENEWAL, RETAKE], [], 2);
      && Possible(unaware, ASKS_ONCE_MORE)
      && var w := Run(unaware, ASKS_ONCE_MORE);
         Owner(w) == Some(0) && 0 in w.instances && w.instances[0].lost
  {
    hide Enabled, Step, Owner;
    RetakenUnheard();
    OwnKeyRefuses();
    var all := [TAKE, RENEWAL, RETAKE, ASKED_AGAIN];
    Began(Unaware(For(3, {false}), all, [], 3), At(0, BeatAnswered(false)), []);
    var events := [At(0, BeatAnswered(false))] + [];
    Began(Unaware(For(3, {}), all, [3], 3), Carried(0), events);
    events := [Carried(0)] + events;
    Began(Unaware(For(3, {}), all, [], 3), At(0, BeatWritten), events);
    events := [At(0, BeatWritten)] + events;
    Began(Unaware(Nothing, [TAKE, RENEWAL, RETAKE], [], 2), At(0, BeatDue), events);
    assert [At(0, BeatDue)] + events == ASKS_ONCE_MORE;
  }

  /** No command is written twice and none is carried out late: a SET NX is carried out and its
      answer lost, the next beat asks afresh and is refused by the process's own key, and a loss is
      reported by the very owner. */
  lemma {:induction false} LostAnswerReportsLoss() returns (events: seq<Event>)
    ensures events ==
      [At(0, LoopStarted), At(0, MainWritten), Carried(0), At(0, MainAnswered(true))]
      + ([Broken, At(0, BeatDue), At(0, BeatWritten), Carried(0), At(0, BeatAnswered(false))]
      + ([At(0, BeatWritten), Carried(0), At(0, BeatFailed)] + ASKS_ONCE_MORE))
    ensures Started(New()) && Possible(New(), events)
    ensures var w := Run(New(), events);
      Owner(w) == Some(0) && 0 in w.instances && w.instances[0].lost
  {
    hide Enabled, Step, Owner;
    RetakenUnheard();
    AsksOnceMore();
    Began(Retaking(HoldingAgain(), {true}, []), At(0, BeatFailed), ASKS_ONCE_MORE);
    events := [At(0, BeatFailed)] + ASKS_ONCE_MORE;
    Began(Retaking(None, {}, [2]), Carried(0), events);
    events := [Carried(0)] + events;
    Began(Retaking(None, {}, []), At(0, BeatWritten), events);
    events := [At(0, BeatWritten)] + events;
    assert events == [At(0, BeatWritten), Carried(0), At(0, BeatFailed)] + ASKS_ONCE_MORE;
    AsksAgain(events);
    events := [Broken] + ([At(0, BeatDue)] + ([At(0, BeatWritten)] + ([Carried(0)] + ([At(0, BeatAnswered(false))] + events))));
    assert events == [Broken, At(0, BeatDue), At(0, BeatWritten), Carried(0), At(0, BeatAnswered(false))]
      + ([At(0, BeatWritten), Carried(0), At(0, BeatFailed)] + ASKS_ONCE_MORE);
    events := Runs(events);
  }
}
