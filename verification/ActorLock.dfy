/** The lease lock of an actor: any number of loops against one Redis key, each with a heartbeat
    that extends the lease and takes it again after it expired. A command may be written again when
    its connection drops, and one that was given up may still be on its way: each copy that was
    written may be carried out at any later moment. */
module ActorLock {
  import opened Text

  /** A random token, known by who minted it and in which order. */
  datatype Token = Token(minter: nat, serial: nat)

  /** The key as Redis holds it; without a deadline it never expires. */
  datatype Held = Held(token: Token, deadline: Option<nat>)

  // ---- The three scripts and SET NX --------------------------------------------------------------

  datatype Kind = Acquire | Renew | Release

  datatype Executed = Executed(key: Option<Held>, ok: bool)

  function Lease(now: nat, timeout: int): Option<nat> {
    if timeout > 0 then Some(now + timeout) else None
  }

  /** One command carried out by Redis. */
  function Execute(key: Option<Held>, kind: Kind, token: Token, now: nat, timeout: int): Executed {
    var mine := key.Some? && key.value.token == token;
    match kind
    case Acquire => if key.None? then Executed(Some(Held(token, Lease(now, timeout))), true) else Executed(key, false)
    case Release => if mine then Executed(None, true) else Executed(key, false)
    case Renew => if mine then Executed(if timeout > 0 then Some(Held(token, Lease(now, timeout))) else key, true) else Executed(key, false)
  }

  // ---- Instances -------------------------------------------------------------------------------------

  /** A command as it was first sent; its number is its place among all commands. */
  datatype Command = Command(owner: nat, kind: Kind, token: Token)

  /** What a process waits for: the command's number, and what copies of it that were carried out
      have answered. */
  datatype Waiting = Nothing | For(number: nat, results: set<bool>)

  datatype Stage = Idle | Acquiring | Running | Releasing | Retrying | Finished

  datatype Note = FlushBegun | LossReported

  /** One process: its token, what its loop and its heartbeat are waiting for, and what it did. */
  datatype Instance = Instance(
    token: Option<Token>, stage: Stage, main: Waiting, beat: Waiting, lost: bool, notes: seq<Note>)

  /** `wire` holds the numbers of the copies on their way to Redis. */
  datatype World = World(
    key: Option<Held>, instances: map<nat, Instance>, commands: seq<Command>, wire: seq<nat>, minted: nat, now: nat, timeout: int)

  /** What can happen in one process. `Main` is its loop's own command, `Beat` its heartbeat's. */
  datatype Act =
    | LoopStarted
    | MainWritten
    | MainAnswered(ok: bool)
    | MainFailed
    | BeatDue
    | BeatWritten
    | BeatAnswered(ok: bool)
    | BeatFailed
    | Polled
    | LoopEnded

  datatype Event =
    | At(i: nat, act: Act)
    | Carried(copy: nat)
    | Expired
    | Broken
    | TimePassed(until: nat)

  const NEW_INSTANCE: Instance := Instance(None, Idle, Nothing, Nothing, false, [])

  /** The timer runs from acquisition until the loop ends; one beat at a time, none after a loss. */
  predicate CanAct(p: Instance, act: Act) {
    match act
    case LoopStarted => p.stage.Idle?
    case MainWritten => p.main.For?
    case MainAnswered(ok) => p.main.For? && ok in p.main.results
    case MainFailed => p.main.For?
    case BeatDue => p.stage.Running? && p.beat.Nothing? && !p.lost
    case BeatWritten => p.beat.For?
    case BeatAnswered(ok) => p.beat.For? && ok in p.beat.results
    case BeatFailed => p.beat.For?
    case Polled => p.stage.Running?
    case LoopEnded => p.stage.Running?
  }

  predicate Enabled(w: World, e: Event) {
    match e
    case At(i, act) => i in w.instances && CanAct(w.instances[i], act)
    case Carried(copy) => copy < |w.wire| && w.wire[copy] < |w.commands|
    case Expired => w.key.Some? && w.key.value.deadline.Some? && w.key.value.deadline.value <= w.now
    case Broken => true
    case TimePassed(until) => w.now <= until
  }

  function Put(w: World, i: nat, p: Instance): World {
    w.(instances := w.instances[i := p])
  }

  function NextNumber(w: World): Waiting {
    For(|w.commands|, {})
  }

  function Sending(w: World, i: nat, kind: Kind, token: Token): World {
    w.(commands := w.commands + [Command(i, kind, token)])
  }

  /** A SET NX goes out with a new token. */
  function AskingForLock(w: World, i: nat): World {
    Sending(w, i, Acquire, Token(i, w.minted)).(minted := w.minted + 1)
  }

  /** `release`: without a token there is nothing to send. */
  function BeginRelease(w: World, i: nat, p: Instance, stage: Stage): World {
    if p.token.None? then Put(w, i, p.(stage := Finished, main := Nothing))
    else Put(Sending(w, i, Release, p.token.value), i, p.(stage := stage, main := NextNumber(w)))
  }

  function MainDone(w: World, i: nat, p: Instance, ok: bool): World {
    if p.stage.Acquiring? && ok && p.main.For? && p.main.number < |w.commands| then
      Put(w, i, p.(token := Some(w.commands[p.main.number].token), stage := Running, main := Nothing))
    else if p.stage.Acquiring? then Put(w, i, p.(stage := Finished, main := Nothing))
    else Put(w, i, p.(token := None, stage := Finished, main := Nothing))
  }

  /** A failed acquisition ends the loop; a failed release is tried once more. */
  function MainGaveUp(w: World, i: nat, p: Instance): World {
    if p.stage.Releasing? then BeginRelease(w, i, p, Retrying) else Put(w, i, p.(stage := Finished, main := Nothing))
  }

  /** A beat's answer: renewed; or not, and then the lock is asked for afresh; taken again; or lost. */
  function BeatDone(w: World, i: nat, p: Instance, c: Command, ok: bool): World {
    match c.kind
    case Acquire =>
      if ok then Put(w, i, p.(token := Some(c.token), beat := Nothing))
      else Put(w, i, p.(beat := Nothing, lost := true, notes := p.notes + [LossReported]))
    case _ =>
      if ok then Put(w, i, p.(beat := Nothing))
      else Put(AskingForLock(w, i), i, p.(token := None, beat := NextNumber(w)))
  }

  function Acted(w: World, i: nat, act: Act): World
    requires i in w.instances && CanAct(w.instances[i], act)
  {
    var p := w.instances[i];
    match act
    case LoopStarted => Put(AskingForLock(w, i), i, p.(stage := Acquiring, main := NextNumber(w)))
    case MainWritten => w.(wire := w.wire + [p.main.number])
    case MainAnswered(ok) => MainDone(w, i, p, ok)
    case MainFailed => MainGaveUp(w, i, p)
    case BeatDue =>
      if p.token.Some? then Put(Sending(w, i, Renew, p.token.value), i, p.(beat := NextNumber(w)))
      else Put(AskingForLock(w, i), i, p.(beat := NextNumber(w)))
    case BeatWritten => w.(wire := w.wire + [p.beat.number])
    case BeatAnswered(ok) =>
      if p.beat.number < |w.commands| then BeatDone(w, i, p, w.commands[p.beat.number], ok) else w
    case BeatFailed => Put(w, i, p.(beat := Nothing))
    case Polled => if p.lost then w else Put(w, i, p.(notes := p.notes + [FlushBegun]))
    case LoopEnded => BeginRelease(w, i, p, Releasing)
  }

  function Result(waiting: Waiting, number: nat, ok: bool): Waiting {
    if waiting.For? && waiting.number == number then waiting.(results := waiting.results + {ok}) else waiting
  }

  function Carry(w: World, number: nat): Executed
    requires number < |w.commands|
  {
    Execute(w.key, w.commands[number].kind, w.commands[number].token, w.now, w.timeout)
  }

  /** A copy reaches Redis; if its sender still waits for it, there is an answer. */
  function CarryOut(w: World, copy: nat): World
    requires copy < |w.wire| && w.wire[copy] < |w.commands|
  {
    var number := w.wire[copy];
    var r := Carry(w, number);
    var arrived := w.(key := r.key, wire := w.wire[..copy] + w.wire[copy + 1..]);
    var i := w.commands[number].owner;
    if i !in w.instances then arrived
    else
      var p := w.instances[i];
      Put(arrived, i, p.(main := Result(p.main, number, r.ok), beat := Result(p.beat, number, r.ok)))
  }

  function Step(w: World, e: Event): World
    requires Enabled(w, e)
  {
    match e
    case At(i, act) => Acted(w, i, act)
    case Carried(copy) => CarryOut(w, copy)
    case Expired => w.(key := None)
    case Broken => w.(key := None)
    case TimePassed(until) => w.(now := until)
  }

  // ---- Invariant ------------------------------------------------------------------------------------------

  predicate CommandFine(c: Command, minted: nat) {
    c.token.minter == c.owner && c.token.serial < minted
  }

  /** A process waits for a command of its own, of a kind that fits. */
  predicate WaitingFine(waiting: Waiting, i: nat, commands: seq<Command>, kinds: set<Kind>) {
    waiting.For? ==>
      waiting.number < |commands| && commands[waiting.number].owner == i && commands[waiting.number].kind in kinds
  }

  /** Loss is reported once, when it is noticed, and nothing is flushed after it. */
  predicate NotesFine(notes: seq<Note>, lost: bool) {
    if lost then
      |notes| > 0 && notes[|notes| - 1] == LossReported && forall k :: 0 <= k < |notes| - 1 ==> notes[k] == FlushBegun
    else forall k :: 0 <= k < |notes| ==> notes[k] == FlushBegun
  }

  function MainKinds(stage: Stage): set<Kind> {
    if stage.Acquiring? then {Acquire} else {Release}
  }

  /** A process that asks for the lock has no token, and one that renews renews its own; before it
      first owned the lock it has neither token nor heartbeat. */
  predicate TokenFine(p: Instance, commands: seq<Command>) {
    && (p.stage in {Idle, Acquiring} ==> p.token.None? && p.beat.Nothing?)
    && (p.beat.For? && p.beat.number < |commands| && p.token.Some? ==>
          commands[p.beat.number].kind.Renew? && commands[p.beat.number].token == p.token.value)
  }

  predicate InstanceFine(p: Instance, i: nat, commands: seq<Command>, minted: nat) {
    && (p.token.Some? ==> p.token.value.minter == i && p.token.value.serial < minted)
    && WaitingFine(p.main, i, commands, MainKinds(p.stage)) && WaitingFine(p.beat, i, commands, {Acquire, Renew})
    && (p.beat.For? ==> !p.lost)
    && (p.main.Nothing? <==> p.stage in {Idle, Running, Finished})
    && NotesFine(p.notes, p.lost) && TokenFine(p, commands)
  }

  predicate Inv(w: World) {
    && (w.key.Some? ==> w.key.value.token.serial < w.minted)
    && (forall n :: 0 <= n < |w.commands| ==> CommandFine(w.commands[n], w.minted))
    && (forall c :: 0 <= c < |w.wire| ==> w.wire[c] < |w.commands|)
    && forall i <- w.instances :: InstanceFine(w.instances[i], i, w.commands, w.minted)
  }

  /** The commands and tokens only grow. */
  lemma StillFine(p: Instance, i: nat, commands: seq<Command>, more: seq<Command>, minted: nat, later: nat)
    requires InstanceFine(p, i, commands, minted) && commands <= more && minted <= later
    ensures InstanceFine(p, i, more, later)
  {
  }

  lemma PutKeeps(w: World, w': World, i: nat)
    requires Inv(w) && i in w.instances && i in w'.instances && w'.instances == w.instances[i := w'.instances[i]]
    requires w.commands <= w'.commands && w.minted <= w'.minted
    requires InstanceFine(w'.instances[i], i, w'.commands, w'.minted)
    requires w'.key.Some? ==> w'.key.value.token.serial < w'.minted
    requires forall n :: |w.commands| <= n < |w'.commands| ==> CommandFine(w'.commands[n], w'.minted)
    requires forall c :: 0 <= c < |w'.wire| ==> w'.wire[c] < |w'.commands|
    ensures Inv(w')
  {
    forall j | j in w'.instances
      ensures InstanceFine(w'.instances[j], j, w'.commands, w'.minted)
    {
      if j != i {
        StillFine(w.instances[j], j, w.commands, w'.commands, w.minted, w'.minted);
      }
    }
    forall n | 0 <= n < |w'.commands|
      ensures CommandFine(w'.commands[n], w'.minted)
    {
      assert n < |w.commands| ==> w'.commands[n] == w.commands[n] && CommandFine(w.commands[n], w.minted);
    }
  }

  predicate OfMain(act: Act) {
    act.LoopStarted? || act.MainWritten? || act.MainAnswered? || act.MainFailed? || act.LoopEnded?
  }

  lemma BeginReleaseKeeps(w: World, i: nat, stage: Stage)
    requires Inv(w) && i in w.instances && stage in {Releasing, Retrying}
    ensures Inv(BeginRelease(w, i, w.instances[i], stage))
  {
    assert InstanceFine(w.instances[i], i, w.commands, w.minted);
    PutKeeps(w, BeginRelease(w, i, w.instances[i], stage), i);
  }

  lemma MainDoneKeeps(w: World, i: nat, ok: bool)
    requires Inv(w) && i in w.instances && w.instances[i].main.For?
    ensures Inv(MainDone(w, i, w.instances[i], ok))
  {
    var p := w.instances[i];
    assert InstanceFine(p, i, w.commands, w.minted);
    assert CommandFine(w.commands[p.main.number], w.minted);
    PutKeeps(w, MainDone(w, i, p, ok), i);
  }

  lemma MainKeeps(w: World, i: nat, act: Act)
    requires Inv(w) && i in w.instances && CanAct(w.instances[i], act) && OfMain(act)
    ensures Inv(Acted(w, i, act))
  {
    hide BeginRelease, MainDone;
    assert InstanceFine(w.instances[i], i, w.commands, w.minted);
    if act.MainAnswered? {
      MainDoneKeeps(w, i, act.ok);
    } else if act.LoopEnded? {
      BeginReleaseKeeps(w, i, Releasing);
    } else if act.MainFailed? && w.instances[i].stage.Releasing? {
      BeginReleaseKeeps(w, i, Retrying);
    } else {
      PutKeeps(w, Acted(w, i, act), i);
    }
  }

  lemma BeatDoneKeeps(w: World, i: nat, ok: bool)
    requires Inv(w) && i in w.instances && w.instances[i].beat.For? && w.instances[i].beat.number < |w.commands|
    ensures Inv(BeatDone(w, i, w.instances[i], w.commands[w.instances[i].beat.number], ok))
  {
    var p := w.instances[i];
    assert InstanceFine(p, i, w.commands, w.minted);
    assert CommandFine(w.commands[p.beat.number], w.minted);
    PutKeeps(w, BeatDone(w, i, p, w.commands[p.beat.number], ok), i);
  }

  lemma BeatKeeps(w: World, i: nat, act: Act)
    requires Inv(w) && i in w.instances && CanAct(w.instances[i], act) && !OfMain(act)
    ensures Inv(Acted(w, i, act))
  {
    hide BeatDone;
    assert InstanceFine(w.instances[i], i, w.commands, w.minted);
    if act.BeatAnswered? {
      BeatDoneKeeps(w, i, act.ok);
    } else {
      PutKeeps(w, Acted(w, i, act), i);
    }
  }

  lemma CarryKeeps(w: World, copy: nat)
    requires Inv(w) && Enabled(w, Carried(copy))
    ensures Inv(CarryOut(w, copy))
  {
    var number := w.wire[copy];
    assert CommandFine(w.commands[number], w.minted);
    var i, w' := w.commands[number].owner, CarryOut(w, copy);
    if i in w.instances {
      assert InstanceFine(w.instances[i], i, w.commands, w.minted);
      PutKeeps(w, w', i);
    }
  }

  lemma StepKeeps(w: World, e: Event)
    requires Inv(w) && Enabled(w, e)
    ensures Inv(Step(w, e))
  {
    match e
    case At(i, act) =>
      if OfMain(act) {
        MainKeeps(w, i, act);
      } else {
        BeatKeeps(w, i, act);
      }
    case Carried(copy) => CarryKeeps(w, copy);
    case _ =>
  }

  predicate Possible(w: World, events: seq<Event>)
    decreases |events|
  {
    |events| == 0 || (Enabled(w, events[0]) && Possible(Step(w, events[0]), events[1..]))
  }

  function Run(w: World, events: seq<Event>): World
    requires Possible(w, events)
    decreases |events|
  {
    if |events| == 0 then w else Run(Step(w, events[0]), events[1..])
  }

  predicate Started(w: World) {
    w.key.None? && w.commands == [] && w.wire == [] && forall i <- w.instances :: w.instances[i] == NEW_INSTANCE
  }

  lemma {:induction false} RunKeeps(w: World, events: seq<Event>)
    requires Inv(w) && Possible(w, events)
    ensures Inv(Run(w, events))
    decreases |events|
  {
    if |events| > 0 {
      StepKeeps(w, events[0]);
      RunKeeps(Step(w, events[0]), events[1..]);
    }
  }

  ghost predicate Reached(start: World, events: seq<Event>, w: World) {
    Started(start) && Possible(start, events) && w == Run(start, events)
  }

  function Owner(w: World): Option<nat> {
    if w.key.Some? then Some(w.key.value.token.minter) else None
  }

  predicate AcquireOf(w: World, number: nat, i: nat) {
    number < |w.commands| && w.commands[number].owner == i && w.commands[number].kind.Acquire?
  }

  // ---- Ownership --------------------------------------------------------------------------------------------

  /** Whose command is carried out at an event, if any. */
  function Executor(w: World, e: Event): Option<nat>
    requires Enabled(w, e)
  {
    if e.Carried? then Some(w.commands[w.wire[e.copy]].owner) else None
  }

  /** A live token is deleted or its lease extended only by the process that minted it, by expiry
      or by hand; a free key is taken only with a token of the taker's own. */
  lemma OnlyTheMinterTouches(start: World, events: seq<Event>, w: World, e: Event)
    requires Reached(start, events, w) && Enabled(w, e) && Step(w, e).key != w.key
    ensures e.Expired? || e.Broken? || Executor(w, e).Some?
    ensures Executor(w, e).Some? && w.key.Some? ==> w.key.value.token.minter == Executor(w, e).value
    ensures Executor(w, e).Some? && w.key.None? ==> Owner(Step(w, e)) == Executor(w, e)
  {
    RunKeeps(start, events);
    assert e.Carried? ==> CommandFine(w.commands[w.wire[e.copy]], w.minted);
  }

  predicate ReleasesItself(w: World, e: Event, i: nat)
    requires Enabled(w, e)
  {
    Executor(w, e) == Some(i) && w.commands[w.wire[e.copy]].kind.Release?
  }

  /** Once a process owns the key, only its own release, expiry or a break ends that: no other
      process can take the actor from it. */
  lemma OwnershipEndsOnly(start: World, events: seq<Event>, w: World, e: Event, i: nat)
    requires Reached(start, events, w) && Enabled(w, e) && Owner(w) == Some(i) && Owner(Step(w, e)) != Some(i)
    ensures e.Expired? || e.Broken? || ReleasesItself(w, e, i)
  {
    RunKeeps(start, events);
    assert e.Carried? ==> CommandFine(w.commands[w.wire[e.copy]], w.minted);
  }

  /** At some moment since the command was sent, the key held this token. */
  predicate HeldSince(w: World, events: seq<Event>, number: nat, token: Token)
    requires Possible(w, events)
    decreases |events|
  {
    (number < |w.commands| && w.key.Some? && w.key.value.token == token)
    || (|events| > 0 && HeldSince(Step(w, events[0]), events[1..], number, token))
  }

  /** A beat's command has been answered with success. */
  predicate BeatSucceeded(w: World, i: nat, number: nat) {
    i in w.instances && w.instances[i].beat.For? && w.instances[i].beat.number == number && true in w.instances[i].beat.results
  }

  lemma {:induction false} SuccessHeld(w: World, events: seq<Event>, i: nat, number: nat, token: Token)
    requires Inv(w) && Possible(w, events) && BeatSucceeded(Run(w, events), i, number)
    requires number < |Run(w, events).commands| && Run(w, events).commands[number].token == token
    ensures BeatSucceeded(w, i, number) || HeldSince(w, events, number, token)
    decreases |events|
  {
    if |events| > 0 {
      var w' := Step(w, events[0]);
      StepKeeps(w, events[0]);
      SuccessHeld(w', events[1..], i, number, token);
      if BeatSucceeded(w', i, number) && !BeatSucceeded(w, i, number) {
        SuccessCarried(w, events[0], i, number);
        CommandsStay(w', events[1..], number);
      }
    }
  }

  /** What a process does by itself brings no answer. */
  lemma ActBringsNothing(w: World, j: nat, act: Act, i: nat, number: nat)
    requires j in w.instances && CanAct(w.instances[j], act) && BeatSucceeded(Acted(w, j, act), i, number)
    ensures BeatSucceeded(w, i, number)
  {
  }

  /** A success comes from a copy that found or made the key its own. */
  lemma SuccessCarried(w: World, e: Event, i: nat, number: nat)
    requires Inv(w) && Enabled(w, e) && BeatSucceeded(Step(w, e), i, number) && !BeatSucceeded(w, i, number)
    ensures number < |w.commands| && Step(w, e).commands == w.commands
    ensures Step(w, e).key.Some? && Step(w, e).key.value.token == w.commands[number].token
  {
    if e.At? {
      ActBringsNothing(w, e.i, e.act, i, number);
    } else if e.Carried? {
      var mine := w.commands[w.wire[e.copy]].owner;
      assert mine in w.instances ==> InstanceFine(w.instances[mine], mine, w.commands, w.minted);
    }
  }

  lemma {:induction false} CommandsStay(w: World, events: seq<Event>, number: nat)
    requires Possible(w, events) && number < |w.commands|
    ensures number < |Run(w, events).commands| && Run(w, events).commands[number] == w.commands[number]
    decreases |events|
  {
    if |events| > 0 {
      CommandsStay(Step(w, events[0]), events[1..], number);
    }
  }

  /** A beat that ends without error and without loss: its process owned the key, under the token of
      its last command, at some moment since that command was sent. */
  lemma {:induction false} BeatProvesOwnership(start: World, events: seq<Event>, w: World, i: nat)
    requires Reached(start, events, w) && Enabled(w, At(i, BeatAnswered(true)))
    ensures var number := w.instances[i].beat.number;
      number < |w.commands| && w.commands[number].owner == i && w.commands[number].token.minter == i
      && HeldSince(start, events, number, w.commands[number].token)
  {
    RunKeeps(start, events);
    assert InstanceFine(w.instances[i], i, w.commands, w.minted);
    var number := w.instances[i].beat.number;
    assert CommandFine(w.commands[number], w.minted);
    SuccessHeld(start, events, i, number, w.commands[number].token);
  }

  /** Loss is reported at most once, as the last thing noted; the loop's poll begins a flush exactly
      until then. */
  lemma LossIsReportedOnce(start: World, events: seq<Event>, w: World, i: nat)
    requires Reached(start, events, w) && i in w.instances
    ensures forall a :: 0 <= a < |w.instances[i].notes| - 1 ==> w.instances[i].notes[a] == FlushBegun
    ensures w.instances[i].lost <==> LossReported in w.instances[i].notes
    ensures Enabled(w, At(i, Polled)) ==>
      var notes := w.instances[i].notes;
      Step(w, At(i, Polled)) == w.(instances := w.instances[i :=
        w.instances[i].(notes := if LossReported in notes then notes else notes + [FlushBegun])])
  {
    RunKeeps(start, events);
    assert InstanceFine(w.instances[i], i, w.commands, w.minted);
  }

  // ---- One event more -------------------------------------------------------------------------------------

  lemma {:induction false} Began(w: World, e: Event, events: seq<Event>)
    requires Enabled(w, e) && Possible(Step(w, e), events)
    ensures Possible(w, [e] + events) && Run(w, [e] + events) == Run(Step(w, e), events)
  {
    assert ([e] + events)[1..] == events;
  }

  lemma ActInstances(w: World, i: nat, act: Act)
    requires i in w.instances && CanAct(w.instances[i], act)
    ensures Acted(w, i, act).instances.Keys == w.instances.Keys && w.commands <= Acted(w, i, act).commands
    ensures Acted(w, i, act).wire == w.wire || act.MainWritten? || act.BeatWritten?
  {
  }
}
