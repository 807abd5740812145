/** What holds of the save queue in every state it can reach, with this client as the only writer. */
module SaveRuns {
  import opened Text
  import opened SaveModel

  // ---- First and last write of a name ------------------------------------------------------------

  function First(writes: seq<QueuedWrite>, name: Name): Option<QueuedWrite> {
    if |writes| == 0 then None
    else if writes[0].name == name then Some(writes[0])
    else First(writes[1..], name)
  }

  lemma {:induction false} OverlayCons(w: QueuedWrite, rest: seq<QueuedWrite>, name: Name)
    ensures Overlay([w] + rest, name) ==
      if Overlay(rest, name).Some? then Overlay(rest, name) else if w.name == name then Some(w) else None
    decreases |rest|
  {
    var whole := [w] + rest;
    if |rest| == 0 {
      assert whole == [w] && whole[..0] == [];
    } else {
      assert whole[..|whole| - 1] == [w] + rest[..|rest| - 1];
      OverlayCons(w, rest[..|rest| - 1], name);
    }
  }

  lemma {:induction false} OverlaySnoc(writes: seq<QueuedWrite>, w: QueuedWrite, name: Name)
    ensures Overlay(writes + [w], name) == if w.name == name then Some(w) else Overlay(writes, name)
  {
    assert (writes + [w])[..|writes|] == writes;
  }

  lemma {:induction false} FirstSnoc(writes: seq<QueuedWrite>, w: QueuedWrite, name: Name)
    ensures First(writes + [w], name) ==
      if First(writes, name).Some? then First(writes, name) else if w.name == name then Some(w) else None
    decreases |writes|
  {
    if |writes| == 0 {
      assert writes + [w] == [w];
      assert [w][1..] == [];
    } else {
      assert (writes + [w])[1..] == writes[1..] + [w];
      FirstSnoc(writes[1..], w, name);
    }
  }

  lemma {:induction false} FirstIffOverlay(writes: seq<QueuedWrite>, name: Name)
    ensures First(writes, name).Some? <==> Overlay(writes, name).Some?
    ensures First(writes, name).Some? ==> First(writes, name).value.name == name
    ensures Overlay(writes, name).Some? ==> Overlay(writes, name).value.name == name
    decreases |writes|
  {
    if |writes| > 0 {
      assert writes == [writes[0]] + writes[1..];
      OverlayCons(writes[0], writes[1..], name);
      FirstIffOverlay(writes[1..], name);
    }
  }

  /** Rebasing changes the revision of the first write of the name and nothing else. */
  lemma {:induction false} RebaseKeeps(writes: seq<QueuedWrite>, name: Name, version: Option<nat>, other: Name)
    ensures var r := Rebase(writes, name, version);
      && Overlay(r, other).Some? == Overlay(writes, other).Some?
      && (Overlay(r, other).Some? ==> Overlay(r, other).value.change == Overlay(writes, other).value.change)
      && (other != name ==> First(r, other) == First(writes, other))
      && (First(writes, name).Some? ==> First(r, name) == Some(First(writes, name).value.(expectedVersion := version)))
      && (First(writes, name).None? ==> First(r, name).None?)
    decreases |writes|
  {
    if |writes| > 0 {
      var w, rest := writes[0], writes[1..];
      assert writes == [w] + rest;
      OverlayCons(w, rest, other);
      if w.name == name {
        OverlayCons(w.(expectedVersion := version), rest, other);
        assert ([w.(expectedVersion := version)] + rest)[1..] == rest;
      } else {
        RebaseKeeps(rest, name, version, other);
        OverlayCons(w, Rebase(rest, name, version), other);
        assert ([w] + Rebase(rest, name, version))[1..] == Rebase(rest, name, version);
      }
    }
  }

  // ---- Invariant ---------------------------------------------------------------------------------------

  /** What a name will hold once the queue has drained: its last queued write, else its row. */
  function Desired(s: Save, name: Name): Option<Text> {
    match Overlay(s.stored, name)
    case Some(w) => Wanted(w.change)
    case None => ValueOf(s.server, name)
  }

  function Wanted(change: Change): Option<Text> {
    match change
    case Store(value) => Some(value)
    case Remove => None
  }

  /** The write's condition will hold, or the write was already done. */
  predicate Fine(sv: Server, w: QueuedWrite) {
    VersionOf(sv, w.name) == w.expectedVersion || AlreadyDone(sv, w)
  }

  predicate FirstFine(sv: Server, writes: seq<QueuedWrite>, name: Name) {
    First(writes, name).Some? ==> Fine(sv, First(writes, name).value)
  }

  predicate CachedRight(s: Save, name: Name) {
    name in s.cache && First(s.stored, name).None? ==>
      s.cache[name] == Cached(ValueOf(s.server, name), VersionOf(s.server, name))
  }

  predicate Climbing(sv: Server) {
    forall name <- sv.rows :: 0 < sv.rows[name].version <= Newest(sv, name)
  }

  ghost predicate Inv(s: Save) {
    && (if s.hydrated then s.writes == s.stored else s.writes == [] && s.cache == map[])
    && Climbing(s.server)
    && (forall name: Name :: FirstFine(s.server, s.stored, name))
    && (forall name: Name :: CachedRight(s, name))
  }

  /** Nothing a reader of the drained queue would see has changed. */
  ghost predicate SameDesired(s: Save, s': Save) {
    forall name: Name :: Desired(s', name) == Desired(s, name)
  }

  ghost predicate DesiredSet(s: Save, s': Save, name: Name, value: Option<Text>) {
    Desired(s', name) == value && forall other: Name :: other != name ==> Desired(s', other) == Desired(s, other)
  }

  // ---- One write done on the server -----------------------------------------------------------------------

  /** A write whose condition holds is done, concerns its own row only, and is seen as done after. */
  lemma AskDoes(sv: Server, w: QueuedWrite, step: nat)
    requires Climbing(sv) && VersionOf(sv, w.name) == w.expectedVersion
    ensures Ask(sv, w, step).Some?
    ensures var sv' := Ask(sv, w, step).value;
      && Climbing(sv') && ValueOf(sv', w.name) == Wanted(w.change) && AlreadyDone(sv', w)
      && forall other: Name :: other != w.name ==>
           VersionOf(sv', other) == VersionOf(sv, other) && ValueOf(sv', other) == ValueOf(sv, other)
  {
  }

  lemma SameRowFine(sv: Server, sv': Server, w: QueuedWrite)
    requires Fine(sv, w) && VersionOf(sv', w.name) == VersionOf(sv, w.name) && ValueOf(sv', w.name) == ValueOf(sv, w.name)
    ensures Fine(sv', w)
  {
  }

  lemma AlreadyDoneValue(sv: Server, w: QueuedWrite)
    requires AlreadyDone(sv, w)
    ensures ValueOf(sv, w.name) == Wanted(w.change)
  {
  }

  // ---- Flushing ---------------------------------------------------------------------------------------------

  /** The server after the first queued write was done, now or before. */
  predicate DoneFirst(s: Save, sv: Server)
    requires |s.writes| > 0
  {
    && Climbing(sv) && AlreadyDone(sv, s.writes[0])
  }

  ghost predicate OthersSame(s: Save, sv: Server, name: Name) {
    forall other: Name :: other != name ==>
      VersionOf(sv, other) == VersionOf(s.server, other) && ValueOf(sv, other) == ValueOf(s.server, other)
  }

  /** The server moved on, the queue did not: an answer that was lost, or a process that died. */
  lemma ServerAhead(s: Save, sv: Server)
    requires Inv(s) && s.hydrated && |s.writes| > 0 && DoneFirst(s, sv) && OthersSame(s, sv, s.writes[0].name)
    ensures Inv(s.(server := sv)) && SameDesired(s, s.(server := sv))
  {
    var w, ahead := s.writes[0], s.(server := sv);
    forall name: Name
      ensures FirstFine(sv, s.stored, name) && CachedRight(ahead, name) && Desired(ahead, name) == Desired(s, name)
    {
      FirstIffOverlay(s.stored, name);
      assert FirstFine(s.server, s.stored, name) && CachedRight(s, name);
      if First(s.stored, name).Some? && name != w.name {
        SameRowFine(s.server, sv, First(s.stored, name).value);
      }
    }
  }

  lemma RestartKeeps(s: Save)
    requires Inv(s)
    ensures Inv(Restart(s)) && SameDesired(s, Restart(s))
  {
    forall name: Name
      ensures FirstFine(s.server, s.stored, name)
    {
      assert FirstFine(s.server, s.stored, name);
    }
  }

  lemma HydrateKeeps(s: Save)
    requires Inv(s)
    ensures Inv(Hydrate(s)) && SameDesired(s, Hydrate(s)) && Hydrate(s).hydrated
  {
    forall name: Name
      ensures FirstFine(s.server, s.stored, name) && CachedRight(Hydrate(s), name)
    {
      assert FirstFine(s.server, s.stored, name) && CachedRight(s, name);
    }
  }

  /** The first write was done and acknowledged: it leaves, the next of its name is rebased. */
  lemma FinishedKeeps(s: Save, sv: Server)
    requires Inv(s) && s.hydrated && |s.writes| > 0 && DoneFirst(s, sv) && OthersSame(s, sv, s.writes[0].name)
    ensures var done := Finished(Noted(s, s.writes[0], sv));
      Inv(done) && SameDesired(s, done)
  {
    var w := s.writes[0];
    var noted := Noted(s, w, sv);
    var done := Finished(noted);
    AlreadyDoneValue(sv, w);
    assert s.writes == [w] + s.writes[1..];
    forall name: Name
      ensures FirstFine(sv, done.stored, name) && CachedRight(done, name) && Desired(done, name) == Desired(s, name)
    {
      RebaseKeeps(s.writes[1..], w.name, VersionOf(sv, w.name), name);
      OverlayCons(w, s.writes[1..], name);
      FirstIffOverlay(s.writes[1..], name);
      assert FirstFine(s.server, s.stored, name) && CachedRight(s, name);
      if name != w.name && First(s.stored, name).Some? {
        FirstIffOverlay(s.stored, name);
        SameRowFine(s.server, sv, First(s.stored, name).value);
      }
    }
  }

  /** One round of a flush: never a conflict; whatever became of its request, every name will
      still hold what it was going to hold. */
  lemma FlushStepKeeps(s: Save, delivery: Delivery, step: nat)
    requires Inv(s) && s.hydrated && |s.writes| > 0
    ensures var r := FlushStep(s, delivery, step);
      && !r.result.Conflict? && Inv(r.save) && SameDesired(s, r.save)
      && (r.result.Accepted? <==> delivery.Acknowledged?)
      && (r.result.Accepted? ==> |r.save.writes| == |s.writes| - 1 && r.save.hydrated)
  {
    var w := s.writes[0];
    assert FirstFine(s.server, s.stored, w.name);
    var sv := if AlreadyDone(s.server, w) then s.server else Ask(s.server, w, step).value;
    if !AlreadyDone(s.server, w) {
      AskDoes(s.server, w, step);
    }
    ServerAhead(s, sv);
    RestartKeeps(s.(server := sv));
    FinishedKeeps(s, sv);
  }

  lemma SameDesiredAgain(a: Save, b: Save, c: Save)
    requires SameDesired(a, b) && SameDesired(b, c)
    ensures SameDesired(a, c)
  {
    forall name: Name
      ensures Desired(c, name) == Desired(a, name)
    {
      assert Desired(b, name) == Desired(a, name);
    }
  }

  /** A flush, however far it gets: no conflict, and nothing that will be held has changed. One
      that completes leaves the queue empty, so the server holds it all. */
  lemma {:induction false} FlushKeeps(s: Save, deliveries: seq<Delivery>, step: nat)
    requires Inv(s) && s.hydrated
    ensures var r := Flush(s, deliveries, step);
      && !r.result.Conflict? && Inv(r.save) && SameDesired(s, r.save)
      && (r.result.Accepted? ==> r.save.stored == [] && forall name: Name :: ValueOf(r.save.server, name) == Desired(s, name))
    decreases |s.writes|
  {
    if |s.writes| == 0 {
      EmptyQueue(s);
    } else {
      var delivery := if |deliveries| > 0 then deliveries[0] else Acknowledged;
      var one := FlushStep(s, delivery, step);
      FlushStepKeeps(s, delivery, step);
      if one.result.Accepted? {
        var later := if |deliveries| > 0 then deliveries[1..] else [];
        FlushKeeps(one.save, later, step);
        SameDesiredAgain(s, one.save, Flush(one.save, later, step).save);
      }
    }
  }

  /** With every request answered a flush completes. */
  lemma {:induction false} AnsweredFlushCompletes(s: Save, deliveries: seq<Delivery>, step: nat)
    requires Inv(s) && s.hydrated && forall i :: 0 <= i < |deliveries| ==> deliveries[i].Acknowledged?
    ensures Flush(s, deliveries, step).result.Accepted?
    decreases |s.writes|
  {
    if |s.writes| > 0 {
      var delivery := if |deliveries| > 0 then deliveries[0] else Acknowledged;
      FlushStepKeeps(s, delivery, step);
      AnsweredFlushCompletes(FlushStep(s, delivery, step).save, if |deliveries| > 0 then deliveries[1..] else [], step);
    }
  }

  lemma EmptyQueue(s: Save)
    requires s.stored == []
    ensures forall name: Name :: ValueOf(s.server, name) == Desired(s, name)
  {
  }

  // ---- Reading and writing -----------------------------------------------------------------------------------

  lemma FetchedKeeps(s: Save, name: Name)
    requires Inv(s) && s.hydrated
    ensures Inv(Fetched(s, name)) && SameDesired(s, Fetched(s, name))
  {
    forall other: Name
      ensures FirstFine(s.server, s.stored, other) && CachedRight(Fetched(s, name), other)
    {
      assert FirstFine(s.server, s.stored, other) && CachedRight(s, other);
    }
  }

  /** A read that returns gives what the name will hold: the last queued write, else the server's
      row, also when the server cannot be reached and the cache answers. */
  lemma {:induction false} ReadIsDesired(s: Save, name: Name, reachable: bool)
    requires Inv(s)
    ensures var r := ReadName(s, name, reachable);
      && Inv(r.save) && r.save.hydrated && SameDesired(s, r.save)
      && (r.reading.Read? ==> r.reading.value == Desired(s, name))
      && (!r.reading.Failed? ==> name in r.save.cache || Overlay(r.save.writes, name).Some?)
  {
    var h := Hydrate(s);
    HydrateKeeps(s);
    assert Desired(h, name) == Desired(s, name);
    FirstIffOverlay(h.stored, name);
    assert CachedRight(h, name);
    if Overlay(h.writes, name).None? && reachable {
      FetchedKeeps(h, name);
      SameDesiredAgain(s, h, Fetched(h, name));
    }
  }

  /** A write on the right revision, added to the queue. */
  lemma EnqueueKeeps(s: Save, w: QueuedWrite)
    requires Inv(s) && s.hydrated && (First(s.stored, w.name).None? ==> Fine(s.server, w))
    ensures var r := PersistQueue(s, s.writes + [w]);
      Inv(r) && DesiredSet(s, r, w.name, Wanted(w.change))
  {
    var r := PersistQueue(s, s.writes + [w]);
    forall name: Name
      ensures FirstFine(r.server, r.stored, name) && CachedRight(r, name)
      ensures Desired(r, name) == if name == w.name then Wanted(w.change) else Desired(s, name)
    {
      FirstSnoc(s.stored, w, name);
      OverlaySnoc(s.stored, w, name);
      assert FirstFine(s.server, s.stored, name) && CachedRight(s, name);
    }
  }

  /** With an empty queue: the write done on the server. */
  lemma DirectKeeps(s: Save, w: QueuedWrite, sv: Server)
    requires Inv(s) && s.hydrated && s.stored == [] && Climbing(sv) && AlreadyDone(sv, w) && OthersSame(s, sv, w.name)
    ensures Inv(Noted(s, w, sv)) && DesiredSet(s, Noted(s, w, sv), w.name, Wanted(w.change))
    ensures Inv(Restart(s.(server := sv))) && DesiredSet(s, Restart(s.(server := sv)), w.name, Wanted(w.change))
    ensures var queued := PersistQueue(s.(server := sv), [w]);
      Inv(queued) && DesiredSet(s, queued, w.name, Wanted(w.change))
  {
    AlreadyDoneValue(sv, w);
    var noted, queued := Noted(s, w, sv), PersistQueue(s.(server := sv), [w]);
    forall name: Name
      ensures CachedRight(noted, name) && CachedRight(queued, name) && FirstFine(sv, [w], name)
      ensures Overlay([w], name) == if name == w.name then Some(w) else None
    {
      assert CachedRight(s, name);
      assert [w][..0] == [] && [w][1..] == [];
    }
  }

  lemma {:induction false} BaseIsFine(s: Save, name: Name, change: Change)
    requires Inv(s) && s.hydrated && (name in s.cache || Overlay(s.writes, name).Some?)
    requires First(s.stored, name).None?
    ensures VersionOf(s.server, name) == BaseVersion(s, name)
  {
    FirstIffOverlay(s.stored, name);
    assert CachedRight(s, name);
  }

  /** A write that is accepted becomes what the name will hold and touches no other name. It is
      never refused for a conflict; if the process dies over it, it was done; if it is refused
      because nothing is known of the name and the server cannot be reached, nothing changed. */
  lemma WriteKeeps(s: Save, name: Name, change: Change, reachable: bool, delivery: Delivery, step: nat)
    requires Inv(s)
    ensures var r := Write(s, name, change, reachable, delivery, step);
      && Inv(r.save) && !r.result.Conflict?
      && (if r.result.Unavailable? then SameDesired(s, r.save) else DesiredSet(s, r.save, name, Wanted(change)))
  {
    var h := Hydrate(s);
    HydrateKeeps(s);
    ReadIsDesired(h, name, reachable);
    assert Hydrate(h) == h;
    var known := if name in h.cache || Overlay(h.writes, name).Some? then h else ReadName(h, name, reachable).save;
    SameDesiredAgain(s, h, known);
    if name in known.cache || Overlay(known.writes, name).Some? {
      KnownWriteKeeps(known, name, change, delivery, step);
    }
  }

  /** The same once the name's revision is known. */
  lemma {:induction false} KnownWriteKeeps(s: Save, name: Name, change: Change, delivery: Delivery, step: nat)
    requires Inv(s) && s.hydrated && (name in s.cache || Overlay(s.writes, name).Some?)
    ensures var item := QueuedWrite(name, change, BaseVersion(s, name));
      var applied := ApplyNew(s, item, delivery, step);
      if |s.writes| > 0 then
        var r := PersistQueue(s, s.writes + [item]);
        Inv(r) && DesiredSet(s, r, name, Wanted(change))
      else if applied.result.Unavailable? then
        var r := PersistQueue(applied.save, applied.save.writes + [item]);
        Inv(r) && DesiredSet(s, r, name, Wanted(change))
      else !applied.result.Conflict? && Inv(applied.save) && DesiredSet(s, applied.save, name, Wanted(change))
  {
    var item := QueuedWrite(name, change, BaseVersion(s, name));
    if First(s.stored, name).None? {
      BaseIsFine(s, name, change);
    }
    EnqueueKeeps(s, item);
    if |s.writes| == 0 {
      AskDoes(s.server, item, step);
      DirectKeeps(s, item, Ask(s.server, item, step).value);
      assert [] + [item] == [item];
    }
  }

  // ---- What is accepted --------------------------------------------------------------------------------------

  /** Something is known of the name: a write of it is queued, or it was read or written before. */
  predicate Known(s: Save, name: Name) {
    name in s.cache || Overlay(s.stored, name).Some?
  }

  /** A read fails exactly if nothing is known of the name and the server is out of reach; and what
      was read is known from then on. */
  lemma ReadFailsIff(s: Save, name: Name, reachable: bool)
    requires Inv(s)
    ensures var r := ReadName(s, name, reachable);
      && (r.reading.Failed? <==> !reachable && !Known(s, name))
      && (!r.reading.Failed? ==> Known(r.save, name))
      && r.save.server == s.server && r.save.stored == s.stored
  {
  }

  /** What the revision of a new write says: the one the client last saw of the name, or one past that
      of the write that waits before it, and none after a removal. */
  predicate Stamped(s: Save, item: QueuedWrite) {
    item.expectedVersion ==
      match Overlay(s.stored, item.name)
      case None => VersionOf(s.server, item.name)
      case Some(QueuedWrite(_, Remove, _)) => None
      case Some(QueuedWrite(_, Store(_), None)) => Some(1)
      case Some(QueuedWrite(_, Store(_), Some(version))) => Some(version + 1)
  }

  /** A write is refused exactly if nothing is known of the name and the server is out of reach. Every
      other one is accepted, or the process died over it. It waits exactly if others wait, or its
      request failed: then it is the last in the queue; else the server holds it at once. */
  lemma WriteIsAcceptedIff(s: Save, name: Name, change: Change, reachable: bool, delivery: Delivery, step: nat)
    requires Inv(s)
    ensures var r := Write(s, name, change, reachable, delivery, step);
      if !reachable && !Known(s, name) then r.result.Unavailable? && r.save.stored == s.stored && r.save.server == s.server
      else if s.stored != [] || delivery.NeverArrived? || delivery.AnswerLost? then
        && r.result.Accepted? && Known(r.save, name) && |r.save.stored| == |s.stored| + 1 && r.save.stored[..|s.stored|] == s.stored
        && r.save.stored[|s.stored|].name == name && r.save.stored[|s.stored|].change == change
        && Stamped(s, r.save.stored[|s.stored|])
        && (s.stored != [] || delivery.NeverArrived? ==> r.save.server == s.server)
      else
        && (if delivery.Died? then r.result.Gone? else r.result.Accepted? && Known(r.save, name))
        && r.save.stored == [] && ValueOf(r.save.server, name) == Wanted(change)
  {
    var h := Hydrate(s);
    HydrateKeeps(s);
    ReadIsDesired(h, name, reachable);
    ReadFailsIff(h, name, reachable);
    assert Hydrate(h) == h;
    var known := if name in h.cache || Overlay(h.writes, name).Some? then h else ReadName(h, name, reachable).save;
    if name in known.cache || Overlay(known.writes, name).Some? {
      KnownWriteIsAccepted(known, name, change, delivery, step);
    }
  }

  /** The same once the name's revision is known. */
  lemma {:induction false} KnownWriteIsAccepted(s: Save, name: Name, change: Change, delivery: Delivery, step: nat)
    requires Inv(s) && s.hydrated && (name in s.cache || Overlay(s.writes, name).Some?)
    ensures var item := QueuedWrite(name, change, BaseVersion(s, name));
      var applied := ApplyNew(s, item, delivery, step);
      && Overlay(s.stored + [item], name) == Some(item) && Stamped(s, item)
      && (s.stored == [] ==>
            && !applied.result.Conflict? && applied.save.stored == [] && applied.save.writes == []
            && (applied.result.Unavailable? <==> delivery.NeverArrived? || delivery.AnswerLost?)
            && (applied.result.Gone? <==> delivery.Died?)
            && (applied.result.Accepted? ==> name in applied.save.cache)
            && (delivery.NeverArrived? ==> applied.save.server == s.server)
            && (!delivery.NeverArrived? ==> ValueOf(applied.save.server, name) == Wanted(change)))
  {
    var item := QueuedWrite(name, change, BaseVersion(s, name));
    OverlaySnoc(s.stored, item, name);
    FirstIffOverlay(s.stored, name);
    if First(s.stored, name).None? {
      BaseIsFine(s, name, change);
    }
    if s.stored == [] {
      BaseIsFine(s, name, change);
      AskDoes(s.server, item, step);
    }
  }

  /** How many requests of a flush are answered, one after the other from the first. */
  function AnsweredFirst(deliveries: seq<Delivery>, count: nat): (k: nat)
    ensures k <= count
    decreases count
  {
    if count == 0 then 0
    else if |deliveries| == 0 then count
    else if !deliveries[0].Acknowledged? then 0
    else 1 + AnsweredFirst(deliveries[1..], count - 1)
  }

  /** All but the first `k` writes remain, at whatever revision. */
  predicate Remain(left: seq<QueuedWrite>, writes: seq<QueuedWrite>, k: nat) {
    && |left| == |writes| - k
    && forall j :: 0 <= j < |left| ==> left[j].name == writes[k + j].name && left[j].change == writes[k + j].change
  }

  lemma RemainAgain(a: seq<QueuedWrite>, b: seq<QueuedWrite>, c: seq<QueuedWrite>, k: nat, m: nat)
    requires Remain(a, b, k) && Remain(b, c, m)
    ensures Remain(a, c, m + k)
  {
  }

  lemma RemainLength(a: seq<QueuedWrite>, b: seq<QueuedWrite>, k: nat)
    requires Remain(a, b, k)
    ensures |a| == |b| - k && Remain(b, b, 0)
  {
  }

  /** A flush takes exactly the writes off the queue, from its front, whose requests are answered; it
      completes exactly if all are. */
  lemma {:induction false} FlushTakesTheAnswered(s: Save, deliveries: seq<Delivery>, step: nat)
    requires Inv(s) && s.hydrated
    ensures var r, k := Flush(s, deliveries, step), AnsweredFirst(deliveries, |s.stored|);
      Remain(r.save.stored, s.stored, k) && (r.result.Accepted? <==> k == |s.stored|)
    decreases |s.writes|
  {
    assert s.writes == s.stored;
    hide Inv, FlushStep, SameDesired;
    if |s.writes| > 0 {
      hide Remain;
      var delivery := if |deliveries| > 0 then deliveries[0] else Acknowledged;
      FlushStepKeeps(s, delivery, step);
      FlushStepTakes(s, delivery, step);
      var one := FlushStep(s, delivery, step);
      HydratedQueue(one.save);
      RemainLength(one.save.stored, s.stored, if delivery.Acknowledged? then 1 else 0);
      if one.result.Accepted? {
        var rest := if |deliveries| > 0 then deliveries[1..] else [];
        FlushTakesTheAnswered(one.save, rest, step);
        RemainAgain(Flush(one.save, rest, step).save.stored, one.save.stored, s.stored, AnsweredFirst(rest, |one.save.stored|), 1);
        if |deliveries| == 0 {
          NoDeliveries(|s.stored| - 1);
        }
      }
    }
  }

  lemma HydratedQueue(s: Save)
    requires Inv(s)
    ensures s.hydrated ==> s.writes == s.stored
  {
  }

  lemma {:induction false} NoDeliveries(count: nat)
    ensures AnsweredFirst([], count) == count
  {
  }

  lemma {:induction false} FlushStepTakes(s: Save, delivery: Delivery, step: nat)
    requires Inv(s) && s.hydrated && |s.writes| > 0
    ensures var r := FlushStep(s, delivery, step);
      Remain(r.save.stored, s.stored, if delivery.Acknowledged? then 1 else 0)
      && (!delivery.Acknowledged? ==> r.save.stored == s.stored)
  {
    var w := s.writes[0];
    assert FirstFine(s.server, s.stored, w.name);
    if !AlreadyDone(s.server, w) {
      AskDoes(s.server, w, step);
    }
    RebaseKeepsPlaces(s.writes[1..], w.name, VersionOf(if AlreadyDone(s.server, w) then s.server else Ask(s.server, w, step).value, w.name));
    if w.change.Remove? {
      RebaseKeepsPlaces(s.writes[1..], w.name, None);
    }
  }

  lemma {:induction false} RebaseKeepsPlaces(writes: seq<QueuedWrite>, name: Name, version: Option<nat>)
    ensures forall j :: 0 <= j < |writes| ==>
      Rebase(writes, name, version)[j].name == writes[j].name && Rebase(writes, name, version)[j].change == writes[j].change
    decreases |writes|
  {
    if |writes| > 0 && writes[0].name != name {
      RebaseKeepsPlaces(writes[1..], name, version);
    }
  }

  // ---- Over every run --------------------------------------------------------------------------------------------

  /** Everything that can happen; `Restarted` is a crash, a reload or a sign-out at any moment. */
  datatype Event =
    | Wrote(name: Name, change: Change, reachable: bool, delivery: Delivery, step: nat)
    | WasRead(name: Name, reachable: bool)
    | Flushed(deliveries: seq<Delivery>, step: nat)
    | Restarted

  /** The client, and the last write of each name that was accepted, or was done as the process
      died over it. */
  datatype World = World(save: Save, last: map<Name, Change>)

  function Happen(w: World, e: Event): World {
    match e
    case Wrote(name, change, reachable, delivery, step) =>
      var r := Write(w.save, name, change, reachable, delivery, step);
      World(r.save, if r.result.Unavailable? || r.result.Conflict? then w.last else w.last[name := change])
    case WasRead(name, reachable) => w.(save := ReadName(w.save, name, reachable).save)
    case Flushed(deliveries, step) => w.(save := Flush(Hydrate(w.save), deliveries, step).save)
    case Restarted => w.(save := Restart(w.save))
  }

  function Run(w: World, events: seq<Event>): World
    decreases |events|
  {
    if |events| == 0 then w else Run(Happen(w, events[0]), events[1..])
  }

  /** A first process, on whatever rows the server has. */
  function Fresh(server: Server): World {
    World(Save(map[], [], false, [], server), map[])
  }

  /** The last accepted change of a name, or the row the server started with. */
  function Last(server: Server, w: World, name: Name): Option<Text> {
    if name in w.last then Wanted(w.last[name]) else ValueOf(server, name)
  }

  ghost predicate Faithful(server: Server, w: World) {
    Inv(w.save) && forall name: Name :: Desired(w.save, name) == Last(server, w, name)
  }

  lemma HappenKeeps(server: Server, w: World, e: Event)
    requires Faithful(server, w)
    ensures Faithful(server, Happen(w, e))
    ensures e.Flushed? ==> !Flush(Hydrate(w.save), e.deliveries, e.step).result.Conflict?
    ensures e.Wrote? ==> !Write(w.save, e.name, e.change, e.reachable, e.delivery, e.step).result.Conflict?
  {
    var w' := Happen(w, e);
    match e {
      case Wrote(name, change, reachable, delivery, step) =>
        WriteKeeps(w.save, name, change, reachable, delivery, step);
      case WasRead(name, reachable) =>
        ReadIsDesired(w.save, name, reachable);
      case Flushed(deliveries, step) =>
        HydrateKeeps(w.save);
        FlushKeeps(Hydrate(w.save), deliveries, step);
        SameDesiredAgain(w.save, Hydrate(w.save), w'.save);
      case Restarted =>
        RestartKeeps(w.save);
    }
    forall name: Name
      ensures Desired(w'.save, name) == Last(server, w', name)
    {
      assert Desired(w.save, name) == Last(server, w, name);
    }
  }

  lemma {:induction false} RunKeeps(server: Server, w: World, events: seq<Event>)
    requires Faithful(server, w)
    ensures Faithful(server, Run(w, events))
    decreases |events|
  {
    if |events| > 0 {
      HappenKeeps(server, w, events[0]);
      RunKeeps(server, Happen(w, events[0]), events[1..]);
    }
  }

  lemma FreshIsFaithful(server: Server)
    requires Climbing(server)
    ensures Faithful(server, Fresh(server))
  {
    forall name: Name
      ensures FirstFine(server, [], name) && CachedRight(Fresh(server).save, name)
    {
    }
  }

  lemma {:induction false} DeliversLast(server: Server, w: World, deliveries: seq<Delivery>, step: nat, name: Name)
    requires Faithful(server, w)
    ensures Desired(w.save, name) == Last(server, w, name) && !Flush(Hydrate(w.save), deliveries, step).result.Conflict?
    ensures var r := Flush(Hydrate(w.save), deliveries, step);
      r.result.Accepted? ==> ValueOf(r.save.server, name) == Last(server, w, name)
  {
    HydrateKeeps(w.save);
    FlushKeeps(Hydrate(w.save), deliveries, step);
    assert Desired(w.save, name) == Last(server, w, name);
    assert Desired(Hydrate(w.save), name) == Desired(w.save, name);
  }

  /** Over every run, with any answers lost and any crashes: the last queued write of a name, else
      its row, is the last change of it that was accepted; and a flush that completes leaves the
      server holding that for every name. */
  lemma {:induction false} FlushDeliversTheLastAccepted(server: Server, events: seq<Event>, deliveries: seq<Delivery>, step: nat, name: Name)
    requires Climbing(server)
    ensures var w := Run(Fresh(server), events);
      var r := Flush(Hydrate(w.save), deliveries, step);
      && Desired(w.save, name) == Last(server, w, name)
      && !r.result.Conflict?
      && (r.result.Accepted? ==> ValueOf(r.save.server, name) == Last(server, w, name))
  {
    FreshIsFaithful(server);
    RunKeeps(server, Fresh(server), events);
    DeliversLast(server, Run(Fresh(server), events), deliveries, step, name);
  }

  /** Over every run a read that returns gives the last accepted change. */
  lemma {:induction false} ReadsTheLastAccepted(server: Server, events: seq<Event>, name: Name, reachable: bool)
    requires Climbing(server)
    ensures var w := Run(Fresh(server), events);
      var r := ReadName(w.save, name, reachable).reading;
      r.Read? ==> r.value == Last(server, w, name)
  {
    FreshIsFaithful(server);
    RunKeeps(server, Fresh(server), events);
    ReadIsDesired(Run(Fresh(server), events).save, name, reachable);
  }

  // ---- Written while offline -------------------------------------------------------------------------------

  /** The process does not die at this event. */
  predicate Survives(w: World, e: Event) {
    match e
    case Wrote(name, change, reachable, delivery, step) => !Write(w.save, name, change, reachable, delivery, step).result.Gone?
    case Flushed(deliveries, step) => !Flush(Hydrate(w.save), deliveries, step).result.Gone?
    case Restarted => false
    case WasRead(_, _) => true
  }

  predicate SurvivesAll(w: World, events: seq<Event>)
    decreases |events|
  {
    |events| == 0 || (Survives(w, events[0]) && SurvivesAll(Happen(w, events[0]), events[1..]))
  }

  /** A write that leaves the queue is remembered. */
  lemma {:induction false} FlushKnows(s: Save, deliveries: seq<Delivery>, step: nat, name: Name)
    requires Inv(s) && s.hydrated && Known(s, name) && !Flush(s, deliveries, step).result.Gone?
    ensures Known(Flush(s, deliveries, step).save, name)
    decreases |s.writes|
  {
    if |s.writes| > 0 {
      var delivery := if |deliveries| > 0 then deliveries[0] else Acknowledged;
      FlushStepKeeps(s, delivery, step);
      if !FlushStep(s, delivery, step).result.Gone? {
        FlushStepKnows(s, delivery, step, name);
      }
      hide Inv, FlushStep, SameDesired;
      var one := FlushStep(s, delivery, step);
      if one.result.Accepted? {
        FlushKnows(one.save, if |deliveries| > 0 then deliveries[1..] else [], step, name);
      }
    }
  }

  lemma {:induction false} FlushStepKnows(s: Save, delivery: Delivery, step: nat, name: Name)
    requires Inv(s) && s.hydrated && |s.writes| > 0 && Known(s, name) && !FlushStep(s, delivery, step).result.Gone?
    ensures Known(FlushStep(s, delivery, step).save, name)
  {
    var w := s.writes[0];
    assert FirstFine(s.server, s.stored, w.name);
    if !AlreadyDone(s.server, w) {
      AskDoes(s.server, w, step);
    }
    assert s.writes == [w] + s.writes[1..];
    OverlayCons(w, s.writes[1..], name);
    var done := FlushStep(s, delivery, step).save;
    if delivery.Acknowledged? {
      RebaseKeeps(s.writes[1..], w.name, if w.name in done.cache then done.cache[w.name].version else None, name);
    }
  }

  lemma ReadKnows(s: Save, name: Name, reachable: bool, other: Name)
    requires Inv(s) && Known(s, other)
    ensures var r := ReadName(s, name, reachable).save;
      Known(r, other) && r.hydrated && r.writes == r.stored
  {
    hide Overlay, FirstFine, CachedRight, Climbing;
  }

  /** The write that is made of what is known keeps it known. */
  lemma {:induction false} MadeKnows(s: Save, item: QueuedWrite, delivery: Delivery, step: nat, other: Name)
    requires s.hydrated && s.writes == s.stored && Known(s, other)
    ensures Known(PersistQueue(s, s.writes + [item]), other)
    ensures var applied := ApplyNew(s, item, delivery, step);
      && (!applied.result.Gone? ==> Known(applied.save, other) && applied.save.hydrated && applied.save.writes == s.writes)
      && (!applied.result.Gone? ==> Known(PersistQueue(applied.save, applied.save.writes + [item]), other))
  {
    hide Overlay, Ask;
    OverlaySnoc(s.stored, item, other);
  }

  lemma {:induction false} WriteKnows(s: Save, name: Name, change: Change, reachable: bool, delivery: Delivery, step: nat, other: Name)
    requires Inv(s) && Known(s, other) && !Write(s, name, change, reachable, delivery, step).result.Gone?
    ensures Known(Write(s, name, change, reachable, delivery, step).save, other)
  {
    hide Known, Overlay, ApplyNew, Inv, BaseVersion;
    HydrateKeeps(s);
    HydrateKnows(s, other);
    var h := Hydrate(s);
    ReadKnows(s, name, reachable, other);
    var read := ReadName(s, name, reachable).save;
    MadeKnows(h, QueuedWrite(name, change, BaseVersion(h, name)), delivery, step, other);
    MadeKnows(read, QueuedWrite(name, change, BaseVersion(read, name)), delivery, step, other);
    ReadAfterHydrate(s, name, reachable);
  }

  lemma HydrateKnows(s: Save, other: Name)
    requires Inv(s) && Known(s, other)
    ensures var h := Hydrate(s);
      Known(h, other) && h.hydrated && h.writes == h.stored
  {
  }

  lemma ReadAfterHydrate(s: Save, name: Name, reachable: bool)
    ensures ReadName(Hydrate(s), name, reachable) == ReadName(s, name, reachable)
  {
    hide Overlay;
  }

  lemma {:induction false} StaysKnown(w: World, e: Event, name: Name)
    requires Inv(w.save) && Known(w.save, name) && Survives(w, e)
    ensures Known(Happen(w, e).save, name)
  {
    match e
    case Wrote(written, change, reachable, delivery, step) => WriteKnows(w.save, written, change, reachable, delivery, step, name);
    case WasRead(read, reachable) =>
    case Flushed(deliveries, step) =>
      HydrateKeeps(w.save);
      FlushKnows(Hydrate(w.save), deliveries, step, name);
  }

  lemma {:induction false} StaysKnownOn(server: Server, w: World, events: seq<Event>, name: Name)
    requires Faithful(server, w) && Known(w.save, name) && SurvivesAll(w, events)
    ensures Known(Run(w, events).save, name) && Faithful(server, Run(w, events))
    decreases |events|
  {
    if |events| > 0 {
      StaysKnown(w, events[0], name);
      HappenKeeps(server, w, events[0]);
      StaysKnownOn(server, Happen(w, events[0]), events[1..], name);
    }
  }

  predicate WritesNot(events: seq<Event>, name: Name) {
    forall i :: 0 <= i < |events| ==> !(events[i].Wrote? && events[i].name == name)
  }

  lemma {:induction false} LastStays(w: World, events: seq<Event>, name: Name)
    requires name in w.last && WritesNot(events, name)
    ensures name in Run(w, events).last && Run(w, events).last[name] == w.last[name]
    decreases |events|
  {
    if |events| > 0 {
      assert !(events[0].Wrote? && events[0].name == name);
      LastStays(Happen(w, events[0]), events[1..], name);
    }
  }

  /** Over every run: once a read of a name was answered, a write of it is accepted while the server is
      out of reach, as long as the process lives; and whatever happens after, crashes included, a
      flush that completes leaves the server holding it, unless the name is written again. */
  lemma {:induction false} OfflineWriteIsDelivered(
    server: Server, before: seq<Event>, name: Name, between: seq<Event>, change: Change, step: nat,
    after: seq<Event>, deliveries: seq<Delivery>)
    requires Climbing(server) && WritesNot(after, name)
    requires SurvivesAll(Happen(Run(Fresh(server), before), WasRead(name, true)), between)
    ensures var w := Run(Happen(Run(Fresh(server), before), WasRead(name, true)), between);
      var written := Write(w.save, name, change, false, NeverArrived, step);
      var later := Run(Happen(w, Wrote(name, change, false, NeverArrived, step)), after);
      var flushed := Flush(Hydrate(later.save), deliveries, step);
      && written.result.Accepted? && written.save.server == w.save.server
      && (flushed.result.Accepted? ==> ValueOf(flushed.save.server, name) == Wanted(change))
  {
    hide Write, ReadName, Flush, Hydrate;
    FreshIsFaithful(server);
    RunKeeps(server, Fresh(server), before);
    var start := Run(Fresh(server), before);
    HappenKeeps(server, start, WasRead(name, true));
    ReadFailsIff(start.save, name, true);
    var read := Happen(start, WasRead(name, true));
    StaysKnownOn(server, read, between, name);
    var w := Run(read, between);
    WriteIsAcceptedIff(w.save, name, change, false, NeverArrived, step);
    var e := Wrote(name, change, false, NeverArrived, step);
    HappenKeeps(server, w, e);
    LastStays(Happen(w, e), after, name);
    RunKeeps(server, Happen(w, e), after);
    DeliversLast(server, Run(Happen(w, e), after), deliveries, step, name);
  }
}
