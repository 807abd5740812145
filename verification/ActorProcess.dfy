/** The actor's own objects: the in-memory queue, the lock of one process on Redis, and the loop
    that drains the queue in single mode. */
module ActorProcess {
  import opened Text
  import F = ActorFlush
  import Q = ActorQueue
  import L = ActorLock

  /** How a command's round trip ends. `Resent` is a command that was carried out, lost its answer
      with its connection, and was carried out and answered again on the next one. */
  datatype Trip = Answered | NeverSent | AnswerLost | Resent

  predicate Returns(trip: Trip) {
    trip.Answered? || trip.Resent?
  }

  // ---- The in-memory queue -------------------------------------------------------------------------

  class InMemoryQueue {
    var queues: map<Text, seq<Q.Message>>

    function Contents(actor: Text): seq<Q.Message>
      reads this
    {
      if actor in queues then queues[actor] else []
    }

    constructor ()
      ensures forall actor :: Contents(actor) == []
    {
      queues := map[];
    }

    ghost predicate OthersKept(actor: Text, before: map<Text, seq<Q.Message>>)
      reads this
    {
      forall other :: other != actor ==> Contents(other) == if other in before then before[other] else []
    }

    method Size(actor: Text) returns (size: nat)
      ensures size == |Contents(actor)|
    {
      size := if actor in queues then |queues[actor]| else 0;
    }

    method Push(actor: Text, item: Q.Message) returns (depth: nat)
      modifies this
      ensures Contents(actor) == old(Contents(actor)) + [item] && depth == |Contents(actor)|
      ensures OthersKept(actor, old(queues))
    {
      if actor in queues {
        queues := queues[actor := queues[actor] + [item]];
        return |queues[actor]|;
      }
      queues := queues[actor := [item]];
      return 1;
    }

    method Pop(actor: Text) returns (item: Option<Q.Message>)
      modifies this
      ensures var before := old(Contents(actor));
        if before == [] then item.None? && Contents(actor) == [] else item == Some(before[0]) && Contents(actor) == before[1..]
      ensures OthersKept(actor, old(queues))
    {
      if actor !in queues || |queues[actor]| == 0 {
        return None;
      }
      item := Some(queues[actor][0]);
      queues := queues[actor := queues[actor][1..]];
    }

    method Peek(actor: Text) returns (item: Option<Q.Message>)
      ensures item == if Contents(actor) == [] then None else Some(Contents(actor)[0])
    {
      if actor !in queues || |queues[actor]| == 0 {
        return None;
      }
      return Some(queues[actor][0]);
    }

    /** Everything at once: what the two commands of the Redis queue amount to. */
    method Flush(actor: Text) returns (items: seq<Q.Message>)
      modifies this
      ensures items == old(Contents(actor)) && Contents(actor) == []
      ensures F.AtomicFlush(F.Atomic(old(Contents(actor)), [])) == F.Atomic(Contents(actor), if items == [] then [] else [items])
      ensures OthersKept(actor, old(queues))
    {
      if actor !in queues || |queues[actor]| == 0 {
        return [];
      }
      items := queues[actor];
      queues := queues - {actor};
    }

    /** Peeks and handles the head, while others push `arrivals` behind it, and pops it unless the
        handler's own error hook throws. */
    method HandleOne(actor: Text, arrivals: seq<Q.Message>, throws: bool) returns (message: Q.Message)
      requires Contents(actor) != []
      modifies this
      ensures message == old(Contents(actor))[0]
      ensures (if throws then [] else [message]) + Contents(actor) == old(Contents(actor)) + arrivals
      ensures throws ==> Contents(actor) != [] && Contents(actor)[0] == message
      ensures OthersKept(actor, old(queues))
    {
      var peeked := Peek(actor);
      message := peeked.value;
      queues := queues[actor := Contents(actor) + arrivals];
      ghost var whole := Contents(actor);
      if throws {
        assert [] + whole == whole;
        return;
      }
      var popped := Pop(actor);
      assert whole == [whole[0]] + whole[1..];
    }

    /** Drains the queue while alive. `turns` says for each message whether the check before it finds
        the actor alive, what others push while it is handled, and whether its handler's error hook
        throws. What was handled left the queue in order; a message whose handling threw is still
        the first one. */
    method ProcessQueueInLock(actor: Text, turns: seq<Turn>) returns (handled: seq<Q.Message>, failed: Option<Q.Message>)
      modifies this
      ensures handled + Contents(actor) == old(Contents(actor)) + Arrived(turns, |handled| + if failed.Some? then 1 else 0)
      ensures |handled| <= |turns| && forall k :: 0 <= k < |handled| ==> turns[k].alive && !turns[k].throws
      ensures |handled| < |turns| && turns[|handled|].alive && failed.None? ==> Contents(actor) == []
      ensures failed.Some? ==>
        && |handled| < |turns| && turns[|handled|].throws
        && Contents(actor) != [] && Contents(actor)[0] == failed.value
    {
      handled := [];
      ghost var start := Contents(actor);
      for turn := 0 to |turns|
        invariant |handled| == turn && forall k :: 0 <= k < turn ==> turns[k].alive && !turns[k].throws
        invariant handled + Contents(actor) == start + Arrived(turns, turn)
      {
        var size := Size(actor);
        if !turns[turn].alive || size == 0 {
          return handled, None;
        }
        ghost var before := Contents(actor);
        var message := HandleOne(actor, turns[turn].arrivals, turns[turn].throws);
        var gone := if turns[turn].throws then [] else [message];
        OneMoreHandled(start, Arrived(turns, turn), turns[turn].arrivals, handled, before, gone, Contents(actor));
        handled := handled + gone;
        if turns[turn].throws {
          return handled, Some(message);
        }
      }
      return handled, None;
    }
  }

  /** One message's turn in the drain loop. */
  datatype Turn = Turn(alive: bool, arrivals: seq<Q.Message>, throws: bool)

  lemma OneMoreHandled(
    start: seq<Q.Message>, arrived: seq<Q.Message>, now: seq<Q.Message>, handled: seq<Q.Message>, before: seq<Q.Message>,
    gone: seq<Q.Message>, after: seq<Q.Message>)
    requires handled + before == start + arrived && before + now == gone + after
    ensures handled + gone + after == start + (arrived + now)
  {
    assert handled + gone + after == handled + (before + now) == handled + before + now;
  }

  /** What was pushed during the first `count` turns. */
  function Arrived(turns: seq<Turn>, count: nat): seq<Q.Message> {
    if count == 0 then []
    else Arrived(turns, count - 1) + (if count <= |turns| then turns[count - 1].arrivals else [])
  }

  // ---- The queue on Redis ------------------------------------------------------------------------------

  class RedisQueue {
    var lists: map<Text, seq<Q.Message>>

    function Contents(actor: Text): seq<Q.Message>
      reads this
    {
      if actor in lists then lists[actor] else []
    }

    constructor (lists: map<Text, seq<Q.Message>>)
      ensures this.lists == lists
    {
      this.lists := lists;
    }

    /** LTRIM, carried out once. */
    method Trim(actor: Text, count: nat)
      modifies this
      ensures Contents(actor) == old(Contents(actor))[Min(count, |old(Contents(actor))|)..]
      ensures forall other :: other != actor ==> Contents(other) == old(Contents(other))
    {
      lists := lists[actor := Contents(actor)[Min(count, |Contents(actor)|)..]];
    }

    /** Two commands: others push `arrivals` in between, and `late` before an LTRIM is carried out
        again. `None` is a failed command. A lost answer to LTRIM loses what LRANGE read; an LTRIM
        that was resent loses unread messages too, unless nothing was pushed. */
    method Flush(actor: Text, arrivals: seq<Q.Message>, late: seq<Q.Message>, range: Trip, trim: Trip)
      returns (items: Option<seq<Q.Message>>)
      modifies this
      ensures items.Some? <==> Returns(range) && (old(Contents(actor)) == [] || Returns(trim))
      ensures items.Some? ==> items.value == old(Contents(actor))
      ensures var before, after := old(Contents(actor)), Contents(actor);
        if !Returns(range) || before == [] then after == before
        else
          match trim
          case Answered => after == arrivals
          case NeverSent => after == before + arrivals
          case AnswerLost => after == arrivals
          case Resent =>
            && after == (arrivals + late)[Min(|before|, |arrivals + late|)..]
            && (after == arrivals + late <==> arrivals + late == [])
      ensures forall other :: other != actor ==> Contents(other) == old(Contents(other))
    {
      if !Returns(range) {
        return None;
      }
      var values := Contents(actor);
      if |values| == 0 {
        return Some([]);
      }
      lists := lists[actor := Contents(actor) + arrivals];
      if trim.NeverSent? {
        return None;
      }
      assert (values + arrivals)[|values|..] == arrivals;
      assert forall other :: other != actor ==> Contents(other) == old(Contents(other));
      Trim(actor, |values|);
      assert forall other :: other != actor ==> Contents(other) == old(Contents(other));
      if trim.Resent? {
        lists := lists[actor := Contents(actor) + late];
        assert forall other :: other != actor ==> Contents(other) == old(Contents(other));
        Trim(actor, |values|);
      }
      return if Returns(trim) then Some(values) else None;
    }
  }

  // ---- The lock of one process -------------------------------------------------------------------------

  class RedisLock {
    /** The keys on the server, and the tokens this process keeps. */
    var keys: map<Text, L.Held>
    var tokens: map<Text, L.Token>
    var now: nat
    const timeout: int
    const process: nat

    constructor (keys: map<Text, L.Held>, now: nat, timeout: int, process: nat)
      ensures this.keys == keys && this.now == now && this.timeout == timeout && this.process == process && tokens == map[]
    {
      this.keys, this.now, this.timeout, this.process := keys, now, timeout, process;
      tokens := map[];
    }

    function Key(actor: Text): Option<L.Held>
      reads this
    {
      if actor in keys then Some(keys[actor]) else None
    }

    /** The key holds a token that this process minted. */
    predicate Owns(actor: Text)
      reads this
    {
      Key(actor).Some? && Key(actor).value.token.minter == process
    }

    /** The key holds the token that this process keeps. */
    predicate Knows(actor: Text)
      reads this
    {
      Key(actor).Some? && actor in tokens && Key(actor).value.token == tokens[actor]
    }

    /** One script on the server, and how its answer comes back. */
    method Send(actor: Text, kind: L.Kind, token: L.Token, trip: Trip) returns (answer: Option<bool>)
      modifies this
      ensures tokens == old(tokens) && now == old(now)
      ensures forall other :: other != actor ==> Key(other) == old(Key(other))
      ensures var once := L.Execute(old(Key(actor)), kind, token, now, timeout);
        var twice := L.Execute(once.key, kind, token, now, timeout);
        match trip
        case NeverSent => answer.None? && Key(actor) == old(Key(actor))
        case AnswerLost => answer.None? && Key(actor) == once.key
        case Answered => answer == Some(once.ok) && Key(actor) == once.key
        case Resent => answer == Some(twice.ok) && Key(actor) == twice.key
    {
      if trip.NeverSent? {
        return None;
      }
      var ok := Carry(actor, kind, token);
      if trip.Resent? {
        ok := Carry(actor, kind, token);
      }
      return if trip.AnswerLost? then None else Some(ok);
    }

    /** The script carried out once. */
    method Carry(actor: Text, kind: L.Kind, token: L.Token) returns (ok: bool)
      modifies this
      ensures tokens == old(tokens) && now == old(now)
      ensures L.Executed(Key(actor), ok) == L.Execute(old(Key(actor)), kind, token, now, timeout)
      ensures forall other :: other != actor ==> Key(other) == old(Key(other))
    {
      var r := L.Execute(Key(actor), kind, token, now, timeout);
      if r.key.Some? {
        keys := keys[actor := r.key.value];
      } else {
        keys := keys - {actor};
      }
      return r.ok;
    }

    /** `None` is a failed round trip. A token is kept only once its acquisition was answered; a
        SET NX that was resent is refused by its own key, and one whose answer was lost leaves a key
        that its process does not know. */
    method TryAcquire(actor: Text, minted: L.Token, trip: Trip) returns (r: Option<bool>)
      modifies this
      ensures r.None? <==> !Returns(trip)
      ensures r == Some(true) <==> trip.Answered? && old(Key(actor)).None?
      ensures tokens == if r == Some(true) then old(tokens)[actor := minted] else old(tokens)
      ensures r == Some(true) ==> Knows(actor)
      ensures old(Key(actor)).Some? ==> Key(actor) == old(Key(actor))
      ensures r == Some(true) ==> Key(actor).value.deadline == if timeout > 0 then Some(now + timeout) else None
      ensures old(Key(actor)).None? ==> if trip.NeverSent? then Key(actor).None? else Key(actor).Some? && Key(actor).value.token == minted
      ensures r == Some(false) && old(Key(actor)).None? <==>
        trip.Resent? && old(Key(actor)).None? && Key(actor).Some? && Key(actor).value.token == minted
    {
      r := Send(actor, L.Acquire, minted, trip);
      if r == Some(true) {
        tokens := tokens[actor := minted];
      }
    }

    /** Deletes the key only if it holds this process's token, and forgets the token only once the
        answer came back: a release that failed can be tried again. */
    method Release(actor: Text, trip: Trip) returns (r: Option<bool>)
      modifies this
      ensures actor !in old(tokens) ==> r == Some(false) && Key(actor) == old(Key(actor)) && tokens == old(tokens)
      ensures Key(actor) != old(Key(actor)) ==>
        && actor in old(tokens) && old(Key(actor)).Some? && old(Key(actor)).value.token == old(tokens)[actor] && Key(actor).None?
      ensures actor in old(tokens) ==> (r.None? <==> !Returns(trip))
      ensures tokens == if r.None? then old(tokens) else old(tokens) - {actor}
      ensures r.Some? && actor in old(tokens) ==> Key(actor).None? || Key(actor).value.token != old(tokens)[actor]
      ensures r == Some(true) <==> trip.Answered? && old(Knows(actor))
      ensures Key(actor) == if old(Knows(actor)) && !trip.NeverSent? then None else old(Key(actor))
    {
      if actor !in tokens {
        assert tokens - {actor} == tokens;
        return Some(false);
      }
      r := Send(actor, L.Release, tokens[actor], trip);
      if r.Some? {
        tokens := tokens - {actor};
      }
    }

    /** Extends the lease of this process's token, and of no other, to the whole timeout from now; a
        token found worthless is forgotten. */
    method Renew(actor: Text, trip: Trip) returns (r: Option<bool>)
      modifies this
      ensures Key(actor) != old(Key(actor)) ==>
        && actor in old(tokens) && old(Key(actor)).Some? && Key(actor).Some?
        && old(Key(actor)).value.token == Key(actor).value.token == old(tokens)[actor]
      ensures r.None? <==> actor in old(tokens) && !Returns(trip)
      ensures r == Some(true) <==>
        actor in old(tokens) && Returns(trip) && old(Key(actor)).Some? && old(Key(actor)).value.token == old(tokens)[actor]
      ensures r == Some(true) ==>
        Key(actor).Some? && Key(actor).value.deadline == if timeout > 0 then Some(now + timeout) else old(Key(actor)).value.deadline
      ensures old(Knows(actor)) && !trip.NeverSent? && timeout > 0 ==> Key(actor).value.deadline == Some(now + timeout)
      ensures trip.NeverSent? ==> Key(actor) == old(Key(actor))
      ensures r == Some(false) ==>
        && Key(actor) == old(Key(actor))
        && (actor in old(tokens) && Key(actor).Some? ==> Key(actor).value.token != old(tokens)[actor])
      ensures tokens == if r == Some(false) then old(tokens) - {actor} else old(tokens)
    {
      if actor !in tokens {
        assert tokens - {actor} == tokens;
        return Some(false);
      }
      r := Send(actor, L.Renew, tokens[actor], trip);
      if r == Some(false) {
        tokens := tokens - {actor};
      }
    }

    /** One heartbeat: `Some(true)` says the actor is still this process's, `Some(false)` that it was
        lost, `None` that a round trip failed. It says lost of its own key exactly if the SET NX was
        resent after it took a free key, or the key held a token of the process that it did not
        know: the answer to an earlier SET NX was lost. */
    method Beat(actor: Text, minted: L.Token, first: Trip, second: Trip) returns (r: Option<bool>)
      requires minted.minter == process && (Key(actor).Some? ==> Key(actor).value.token != minted)
      modifies this
      ensures r == Some(true) ==> Knows(actor) && (timeout > 0 ==> Key(actor).value.deadline == Some(now + timeout))
      ensures r == Some(true) <==>
        if old(Knows(actor)) then Returns(first)
        else (actor in old(tokens) ==> Returns(first)) && old(Key(actor)).None? && second.Answered?
      ensures r == Some(false) ==> Key(actor).Some? && !old(Knows(actor)) && (old(Key(actor)).Some? ==> Key(actor) == old(Key(actor)))
      ensures r == Some(false) && Owns(actor) <==>
        && (actor in old(tokens) ==> Returns(first))
        && (if old(Key(actor)).None? then second.Resent? else old(Owns(actor)) && !old(Knows(actor)) && Returns(second))
    {
      var renewed := Renew(actor, first);
      if renewed.None? || renewed.value {
        return renewed;
      }
      r := TryAcquire(actor, minted, second);
      assert r.Some? && !r.value ==> r == Some(false);
    }
  }
}
