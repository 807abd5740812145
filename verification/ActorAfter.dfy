/** What a process can still do to the key after its loop is over. */
module ActorAfter {
  import opened Text
  import opened ActorLock
  import opened ActorSurprises

  /** A SET NX of the process is on its way to Redis. */
  predicate AcquireOnWire(w: World, i: nat) {
    exists c :: 0 <= c < |w.wire| && AcquireOf(w, w.wire[c], i)
  }

  /** A process whose loop and heartbeat are over, with no SET NX on its way. */
  predicate Silent(w: World, i: nat) {
    i in w.instances && w.instances[i].stage.Finished? && w.instances[i].main.Nothing? && w.instances[i].beat.Nothing?
    && !AcquireOnWire(w, i)
  }

  lemma StaysSilent(w: World, e: Event, i: nat)
    requires Inv(w) && Enabled(w, e) && Silent(w, i) && Owner(w) != Some(i)
    ensures Silent(Step(w, e), i) && Owner(Step(w, e)) != Some(i)
  {
    match e
    case At(j, act) => ActStaysSilent(w, j, act, i);
    case Carried(copy) => CarryStaysSilent(w, copy, i);
    case _ =>
  }

  lemma ActStaysSilent(w: World, j: nat, act: Act, i: nat)
    requires Inv(w) && Enabled(w, At(j, act)) && Silent(w, i) && Owner(w) != Some(i)
    ensures Silent(Acted(w, j, act), i) && Owner(Acted(w, j, act)) != Some(i)
  {
    var w' := Acted(w, j, act);
    assert j != i ==> InstanceFine(w.instances[j], j, w.commands, w.minted);
    assert InstanceFine(w.instances[i], i, w.commands, w.minted);
    ActInstances(w, j, act);
    forall c | 0 <= c < |w'.wire|
      ensures !AcquireOf(w', w'.wire[c], i)
    {
      assert c < |w.wire| ==> w'.wire[c] == w.wire[c] && !AcquireOf(w, w.wire[c], i);
    }
  }

  lemma CarryStaysSilent(w: World, copy: nat, i: nat)
    requires Inv(w) && Enabled(w, Carried(copy)) && Silent(w, i) && Owner(w) != Some(i)
    ensures Silent(CarryOut(w, copy), i) && Owner(CarryOut(w, copy)) != Some(i)
  {
    var w' := CarryOut(w, copy);
    assert CommandFine(w.commands[w.wire[copy]], w.minted);
    forall c | 0 <= c < |w'.wire|
      ensures !AcquireOf(w', w'.wire[c], i)
    {
      var c' := if c < copy then c else c + 1;
      assert w'.wire[c] == w.wire[c'] && !AcquireOf(w, w.wire[c'], i);
    }
    assert !AcquireOf(w, w.wire[copy], i);
  }

  /** Such a process never touches the key again, so it never comes to own it. */
  lemma {:induction false} SilenceIsFinal(w: World, events: seq<Event>, i: nat)
    requires Inv(w) && Possible(w, events) && Silent(w, i) && Owner(w) != Some(i)
    ensures Silent(Run(w, events), i) && Owner(Run(w, events)) != Some(i)
    decreases |events|
  {
    if |events| > 0 {
      StepKeeps(w, events[0]);
      StaysSilent(w, events[0], i);
      SilenceIsFinal(Step(w, events[0]), events[1..], i);
    }
  }

  /** The process's loop stands where it stood. */
  predicate SameStage(w: World, w': World, i: nat) {
    i in w.instances && i in w'.instances && w'.instances[i].stage == w.instances[i].stage
    && (w'.instances[i].main.Nothing? <==> w.instances[i].main.Nothing?)
  }

  /** With the key free, a SET NX on the wire takes it. */
  lemma {:induction false} WireTakes(w: World, i: nat, copy: nat)
    requires Inv(w) && w.key.None? && copy < |w.wire| && AcquireOf(w, w.wire[copy], i)
    ensures var events := [Carried(copy)] + [];
      Possible(w, events) && Owner(Run(w, events)) == Some(i) && (i in w.instances ==> SameStage(w, Run(w, events), i))
  {
    assert CommandFine(w.commands[w.wire[copy]], w.minted);
    Began(w, Carried(copy), []);
  }

  /** With the key free, a heartbeat that waits for a SET NX has it written and takes the key. */
  lemma {:induction false} BeatTakes(w: World, i: nat) returns (events: seq<Event>)
    requires Inv(w) && w.key.None? && i in w.instances && w.instances[i].beat.For? && w.instances[i].beat.number < |w.commands|
    requires w.commands[w.instances[i].beat.number].kind.Acquire?
    ensures Possible(w, events) && Owner(Run(w, events)) == Some(i) && SameStage(w, Run(w, events), i)
  {
    assert InstanceFine(w.instances[i], i, w.commands, w.minted);
    var written := Step(w, At(i, BeatWritten));
    StepKeeps(w, At(i, BeatWritten));
    WireTakes(written, i, |w.wire|);
    events := [Carried(|w.wire|)] + [];
    Began(w, At(i, BeatWritten), events);
    events := [At(i, BeatWritten)] + events;
  }

  /** With the key free, a renewal is refused, and the lock is asked for afresh. */
  lemma {:induction false} RenewalTakes(w: World, i: nat) returns (events: seq<Event>)
    requires Inv(w) && w.key.None? && i in w.instances && w.instances[i].beat.For? && w.instances[i].beat.number < |w.commands|
    requires w.commands[w.instances[i].beat.number].kind.Renew?
    ensures Possible(w, events) && Owner(Run(w, events)) == Some(i) && SameStage(w, Run(w, events), i)
  {
    assert InstanceFine(w.instances[i], i, w.commands, w.minted);
    var written := Step(w, At(i, BeatWritten));
    StepKeeps(w, At(i, BeatWritten));
    var refused := Step(written, Carried(|w.wire|));
    StepKeeps(written, Carried(|w.wire|));
    var asks := Step(refused, At(i, BeatAnswered(false)));
    StepKeeps(refused, At(i, BeatAnswered(false)));
    events := BeatTakes(asks, i);
    Began(refused, At(i, BeatAnswered(false)), events);
    events := [At(i, BeatAnswered(false))] + events;
    Began(written, Carried(|w.wire|), events);
    events := [Carried(|w.wire|)] + events;
    Began(w, At(i, BeatWritten), events);
    events := [At(i, BeatWritten)] + events;
  }

  lemma {:induction false} TakesAgain(w: World, i: nat) returns (events: seq<Event>)
    requires Inv(w) && i in w.instances && (w.instances[i].beat.For? || AcquireOnWire(w, i))
    ensures Possible(w, events) && Owner(Run(w, events)) == Some(i)
  {
    assert InstanceFine(w.instances[i], i, w.commands, w.minted);
    var broken := Step(w, Broken);
    StepKeeps(w, Broken);
    if w.instances[i].beat.For? {
      if w.commands[w.instances[i].beat.number].kind.Acquire? {
        events := BeatTakes(broken, i);
      } else {
        events := RenewalTakes(broken, i);
      }
    } else {
      var copy :| 0 <= copy < |w.wire| && AcquireOf(w, w.wire[copy], i);
      WireTakes(broken, i, copy);
      events := [Carried(copy)] + [];
    }
    Began(w, Broken, events);
    events := [Broken] + events;
  }

  /** The exceptions are exact: after its loop is over, a process that does not own the key can come
      to own it again if and only if a beat of its is not over or a SET NX of its is on its way. */
  lemma {:induction false} OwnsAgainIff(w: World, i: nat)
    requires Inv(w) && i in w.instances && w.instances[i].stage.Finished? && Owner(w) != Some(i)
    ensures w.instances[i].beat.For? || AcquireOnWire(w, i)
      <==> exists events :: Possible(w, events) && Owner(Run(w, events)) == Some(i)
  {
    assert InstanceFine(w.instances[i], i, w.commands, w.minted);
    if w.instances[i].beat.For? || AcquireOnWire(w, i) {
      var events := TakesAgain(w, i);
    } else {
      forall events | Possible(w, events)
        ensures Owner(Run(w, events)) != Some(i)
      {
        SilenceIsFinal(w, events, i);
      }
    }
  }

  const LETTING_GO: Command := Command(0, Release, FIRST)

  const ALL_THREE: seq<Command> := [TAKE, RENEWAL, LETTING_GO]

  /** The loop lets go of the key while a renewal is not yet written. */
  function LettingGo(key: Option<Held>, results: set<bool>, wire: seq<nat>): World {
    Alone(key, Instance(Some(FIRST), Releasing, For(2, results), For(1, {}), false, []), ALL_THREE, wire, 1)
  }

  function LetGo(): World {
    Alone(None, Instance(None, Finished, Nothing, For(1, {}), false, []), ALL_THREE, [], 1)
  }

  lemma {:induction false} EndsDuringBeat()
    ensures var due := Alone(Holding(), Instance(Some(FIRST), Running, Nothing, For(1, {}), false, []), [TAKE, RENEWAL], [], 1);
      && Enabled(Ran(), At(0, BeatDue)) && Step(Ran(), At(0, BeatDue)) == due
      && Enabled(due, At(0, LoopEnded)) && Step(due, At(0, LoopEnded)) == LettingGo(Holding(), {}, [])
  {
    assert [TAKE] + [RENEWAL] == [TAKE, RENEWAL] && [TAKE, RENEWAL] + [LETTING_GO] == ALL_THREE;
  }

  lemma {:induction false} IsLetGo()
    ensures var held, free := LettingGo(Holding(), {}, []), LettingGo(None, {true}, []);
      && Enabled(held, At(0, MainWritten)) && Step(held, At(0, MainWritten)) == held.(wire := [2])
      && Enabled(held.(wire := [2]), Carried(0)) && Step(held.(wire := [2]), Carried(0)) == free
      && Enabled(free, At(0, MainAnswered(true))) && Step(free, At(0, MainAnswered(true))) == LetGo()
  {
    var none: set<bool> := {};
    assert none + {true} == {true} && [] + [2] == [2] && [2][..0] + [2][1..] == [];
  }

  /** A loop that ends, or whose release failed once, lets its key go as soon as the release that it
      then sends is carried out. */
  lemma {:induction false} ReleaseFrees(w: World, i: nat, e: Event)
    requires i in w.instances && w.instances[i].token.Some? && w.key.Some? && w.key.value.token == w.instances[i].token.value
    requires (e == At(i, LoopEnded) && w.instances[i].stage.Running?)
      || (e == At(i, MainFailed) && w.instances[i].stage.Releasing? && w.instances[i].main.For?)
    ensures var run := [e] + ([At(i, MainWritten)] + ([Carried(|w.wire|)] + []));
      Possible(w, run) && Run(w, run).key.None? && Run(w, run).wire == w.wire
  {
    var sending := Step(w, e);
    var written := Step(sending, At(i, MainWritten));
    var carried := Step(written, Carried(|w.wire|));
    assert written.wire[|w.wire|] == |w.commands|;
    assert written.wire[..|w.wire|] + written.wire[|w.wire| + 1..] == w.wire;
    assert Enabled(written, Carried(|w.wire|)) && carried.key.None? && carried.wire == w.wire;
    hide Enabled, Step;
    Began(written, Carried(|w.wire|), []);
    Began(sending, At(i, MainWritten), [Carried(|w.wire|)] + []);
    Began(w, e, [At(i, MainWritten)] + ([Carried(|w.wire|)] + []));
  }

  /** From the moment the loop owns the key to its end, with a renewal not yet written. */
  lemma {:induction false} EndsWithBeat(rest: seq<Event>) returns (events: seq<Event>)
    requires Possible(LetGo(), rest)
    ensures Possible(Ran(), events) && Run(Ran(), events) == Run(LetGo(), rest)
  {
    hide Enabled, Step;
    EndsDuringBeat();
    IsLetGo();
    var due := Alone(Holding(), Instance(Some(FIRST), Running, Nothing, For(1, {}), false, []), [TAKE, RENEWAL], [], 1);
    var held := LettingGo(Holding(), {}, []);
    Began(LettingGo(None, {true}, []), At(0, MainAnswered(true)), rest);
    events := [At(0, MainAnswered(true))] + rest;
    Began(held.(wire := [2]), Carried(0), events);
    events := [Carried(0)] + events;
    Began(held, At(0, MainWritten), events);
    events := [At(0, MainWritten)] + events;
    Began(due, At(0, LoopEnded), events);
    events := [At(0, LoopEnded)] + events;
    Began(Ran(), At(0, BeatDue), events);
    events := [At(0, BeatDue)] + events;
  }

  /** A loop that ended while a beat was on its way can own the key again after its release was
      carried out: the beat finds the lease gone and takes the lock afresh, and nobody is left to
      release it. */
  lemma {:induction false} BeatCanOutliveRelease() returns (events: seq<Event>)
    ensures Started(New()) && Possible(New(), events) && EndedOwning(Run(New(), events), 0)
  {
    assert InstanceFine(LetGo().instances[0], 0, ALL_THREE, 1) && Inv(LetGo());
    var taking := RenewalTakes(LetGo(), 0);
    var rest := EndsWithBeat(taking);
    events := Runs(rest);
  }
}
