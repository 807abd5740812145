/** The save object: cache and queue in memory, the adapter's copy of the queue and the server
    outside. Each method does what `SaveModel` says of it, and none but a write changes what any
    name is going to hold. */
module SaveQueue {
  import opened Text
  import R = SaveRuns
  import S = SaveModel

  class SaveQueue {
    var cache: map<S.Name, S.Cached>
    var writes: seq<S.QueuedWrite>
    var hydrated: bool
    var stored: seq<S.QueuedWrite>
    var server: S.Server

    function Snapshot(): S.Save
      reads this
    {
      S.Save(cache, writes, hydrated, stored, server)
    }

    /** The first queued write of each name is going to be taken by the server or was done before,
        and the cache is right about names with nothing queued. */
    ghost predicate Valid()
      reads this
    {
      R.Inv(Snapshot())
    }

    constructor (stored: seq<S.QueuedWrite>, server: S.Server)
      ensures Snapshot() == S.Save(map[], [], false, stored, server)
    {
      cache, writes, hydrated := map[], [], false;
      this.stored, this.server := stored, server;
    }

    method Hydrate()
      requires Valid()
      modifies this
      ensures Snapshot() == S.Hydrate(old(Snapshot()))
      ensures Valid() && hydrated && writes == stored && R.SameDesired(old(Snapshot()), Snapshot())
    {
      R.HydrateKeeps(Snapshot());
      if hydrated {
        return;
      }
      hydrated := true;
      writes := stored;
    }

    /** The last queued write of a name. */
    method Overlay(name: S.Name) returns (found: Option<S.QueuedWrite>)
      ensures found == S.Overlay(writes, name)
      ensures found.Some? ==> found.value in writes && found.value.name == name
    {
      var i: nat := |writes|;
      assert writes[..i] == writes;
      while i > 0
        invariant i <= |writes|
        invariant S.Overlay(writes[..i], name) == S.Overlay(writes, name)
      {
        assert writes[..i][..i - 1] == writes[..i - 1];
        if writes[i - 1].name == name {
          return Some(writes[i - 1]);
        }
        i := i - 1;
      }
      return None;
    }

    /** A read that returns gives what the name is going to hold; it fails exactly if nothing is known
        of the name and the server is out of reach. */
    method Read(name: S.Name, reachable: bool) returns (reading: S.Reading)
      requires Valid()
      modifies this
      ensures S.ReadEnded(Snapshot(), reading) == S.ReadName(old(Snapshot()), name, reachable)
      ensures Valid() && R.SameDesired(old(Snapshot()), Snapshot())
      ensures reading.Read? ==> reading.value == R.Desired(Snapshot(), name)
      ensures reading.Failed? <==> !reachable && !R.Known(old(Snapshot()), name)
    {
      R.ReadIsDesired(Snapshot(), name, reachable);
      R.ReadFailsIff(Snapshot(), name, reachable);
      Hydrate();
      var staged := Overlay(name);
      if staged.Some? {
        return S.Read(if staged.value.change.Remove? then None else Some(staged.value.change.value));
      }
      if reachable {
        cache := cache[name := S.Cached(S.ValueOf(server, name), S.VersionOf(server, name))];
        return S.Read(S.ValueOf(server, name));
      }
      return if name in cache then S.Read(cache[name].value) else S.Failed;
    }

    method PersistQueue(next: seq<S.QueuedWrite>)
      modifies this
      ensures Snapshot() == S.PersistQueue(old(Snapshot()), next)
    {
      stored := next;
      writes := next;
    }

    /** A new process: only the adapter's queue and the server are left, and that is enough. */
    method Restart()
      modifies this
      ensures Snapshot() == S.Restart(old(Snapshot()))
      ensures R.Inv(old(Snapshot())) ==> Valid() && R.SameDesired(old(Snapshot()), Snapshot())
    {
      if R.Inv(Snapshot()) {
        R.RestartKeeps(Snapshot());
      }
      cache, writes, hydrated := map[], [], false;
    }

    method Apply(write: S.QueuedWrite, recover: bool, delivery: S.Delivery, step: nat) returns (result: S.Result)
      requires recover ==> |writes| > 0 && write == writes[0]
      modifies this
      ensures S.Ended(Snapshot(), result) ==
        if recover then S.ApplyQueued(old(Snapshot()), delivery, step) else S.ApplyNew(old(Snapshot()), write, delivery, step)
    {
      var done := recover && S.AlreadyDone(server, write);
      if recover && delivery.NeverArrived? {
        return S.Unavailable;
      }
      var asked := if done then Some(server) else S.Ask(server, write, step);
      if asked.None? && delivery.Acknowledged? {
        return S.Conflict;
      }
      if delivery.NeverArrived? {
        return S.Unavailable;
      }
      server := if asked.Some? then asked.value else server;
      match delivery {
        case Acknowledged =>
          var version := S.VersionOf(server, write.name);
          cache := cache[write.name := if write.change.Remove? then S.Cached(None, None) else S.Cached(Some(write.change.value), version)];
          return S.Accepted;
        case AnswerLost =>
          return S.Unavailable;
        case Died =>
          Restart();
          return S.Gone;
      }
    }

    /** An accepted write becomes what its name is going to hold and touches no other name, also if
        the process died over it; a refused one changes nothing; none conflicts. It is refused exactly
        if nothing is known of the name and the server is out of reach; one that could not be sent,
        or that others wait before, is queued as the last. */
    method Write(name: S.Name, change: S.Change, reachable: bool, delivery: S.Delivery, step: nat) returns (result: S.Result)
      requires Valid()
      modifies this
      ensures S.Ended(Snapshot(), result) == S.Write(old(Snapshot()), name, change, reachable, delivery, step)
      ensures Valid() && !result.Conflict?
      ensures if result.Unavailable? then R.SameDesired(old(Snapshot()), Snapshot())
              else R.DesiredSet(old(Snapshot()), Snapshot(), name, R.Wanted(change))
      ensures result.Unavailable? <==> !reachable && !R.Known(old(Snapshot()), name)
      ensures result.Gone? <==> !result.Unavailable? && old(stored) == [] && delivery.Died?
      ensures result.Accepted? ==>
        if old(stored) != [] || delivery.NeverArrived? || delivery.AnswerLost? then
          && |stored| == |old(stored)| + 1 && stored[..|old(stored)|] == old(stored)
          && stored[|old(stored)|].name == name && stored[|old(stored)|].change == change
        else stored == [] && S.ValueOf(server, name) == R.Wanted(change)
    {
      R.WriteKeeps(Snapshot(), name, change, reachable, delivery, step);
      R.WriteIsAcceptedIff(Snapshot(), name, change, reachable, delivery, step);
      hide R.Inv, R.Known, R.SameDesired, R.DesiredSet;
      Hydrate();
      var staged := Overlay(name);
      if name !in cache && staged.None? {
        var reading := Read(name, reachable);
        if reading.Failed? {
          return S.Unavailable;
        }
      }
      var item := S.QueuedWrite(name, change, S.BaseVersion(Snapshot(), name));
      if |writes| > 0 {
        PersistQueue(writes + [item]);
        return S.Accepted;
      }
      result := Apply(item, false, delivery, step);
      if result.Unavailable? {
        PersistQueue(writes + [item]);
        result := S.Accepted;
      }
    }

    /** However far it gets, what any name is going to hold stays; once it completes, the server
        holds it. */
    method Flush(deliveries: seq<S.Delivery>, step: nat) returns (result: S.Result)
      requires Valid()
      modifies this
      ensures S.Ended(Snapshot(), result) == S.Flush(S.Hydrate(old(Snapshot())), deliveries, step)
      ensures Valid() && !result.Conflict? && R.SameDesired(old(Snapshot()), Snapshot())
      ensures result.Accepted? ==> stored == [] && forall name :: S.ValueOf(server, name) == R.Desired(old(Snapshot()), name)
      ensures |stored| == |old(stored)| - R.AnsweredFirst(deliveries, |old(stored)|)
      ensures result.Accepted? <==> R.AnsweredFirst(deliveries, |old(stored)|) == |old(stored)|
    {
      R.HydrateKeeps(Snapshot());
      R.FlushTakesTheAnswered(S.Hydrate(Snapshot()), deliveries, step);
      R.FlushKeeps(S.Hydrate(Snapshot()), deliveries, step);
      R.SameDesiredAgain(Snapshot(), S.Hydrate(Snapshot()), S.Flush(S.Hydrate(Snapshot()), deliveries, step).save);
      hide R.Inv, R.SameDesired;
      Hydrate();
      ghost var whole := S.Flush(Snapshot(), deliveries, step);
      var left := deliveries;
      while |writes| > 0
        invariant S.Flush(Snapshot(), left, step) == whole
        decreases |writes|
      {
        var item := writes[0];
        var delivery := if |left| > 0 then left[0] else S.Acknowledged;
        result := Apply(item, true, delivery, step);
        if !result.Accepted? {
          return;
        }
        var version := if item.name in cache then cache[item.name].version else None;
        PersistQueue(S.Rebase(writes[1..], item.name, version));
        left := if |left| > 0 then left[1..] else [];
      }
      return S.Accepted;
    }
  }
}
