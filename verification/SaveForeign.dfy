/** Rows that another client wrote: a write meets them at another revision than the one it was made
    on, and leaves them alone. */
module SaveForeign {
  import opened Text
  import opened SaveModel
  import opened SaveRuns

  /** The row is not at the revision the write was made on, nor what the write wants at a newer one. */
  predicate Foreign(sv: Server, w: QueuedWrite) {
    && VersionOf(sv, w.name) != w.expectedVersion && !(w.change.Remove? && w.name !in sv.rows)
    && !(w.change.Store? && w.name in sv.rows && sv.rows[w.name].value == w.change.value
         && (w.expectedVersion.None? || sv.rows[w.name].version > w.expectedVersion.value))
  }

  /** A write whose revision is not the row's is refused, and only then. */
  lemma AskRefusesIff(sv: Server, w: QueuedWrite, step: nat)
    ensures Ask(sv, w, step).None? <==>
      VersionOf(sv, w.name) != w.expectedVersion && !(w.change.Remove? && w.name !in sv.rows)
  {
  }

  /** How a refused request ends for the client. */
  predicate RefusedAs(delivery: Delivery, result: Result) {
    match delivery
    case Acknowledged => result.Conflict?
    case NeverArrived => result.Unavailable?
    case AnswerLost => result.Unavailable?
    case Died => result.Gone?
  }

  predicate RowSame(a: Server, b: Server, name: Name) {
    VersionOf(a, name) == VersionOf(b, name) && ValueOf(a, name) == ValueOf(b, name)
  }

  lemma ForeignStepFails(s: Save, delivery: Delivery, step: nat)
    requires |s.writes| > 0 && Foreign(s.server, s.writes[0])
    requires forall name <- s.server.rows :: s.server.rows[name].version > 0
    ensures var r := FlushStep(s, delivery, step);
      r.save.server == s.server && r.save.stored == s.stored && RefusedAs(delivery, r.result)
  {
    AskRefusesIff(s.server, s.writes[0], step);
  }

  lemma AskTouchesOnly(sv: Server, w: QueuedWrite, step: nat, other: Name)
    requires other != w.name && Ask(sv, w, step).Some?
    ensures RowSame(sv, Ask(sv, w, step).value, other)
    ensures Climbing(sv) ==> Climbing(Ask(sv, w, step).value)
  {
  }

  lemma {:induction false} OtherStepKeeps(s: Save, delivery: Delivery, step: nat, name: Name)
    requires s.hydrated && s.writes == s.stored && Climbing(s.server) && |s.writes| > 0 && s.writes[0].name != name
    ensures var r := FlushStep(s, delivery, step);
      && RowSame(s.server, r.save.server, name) && First(r.save.stored, name) == First(s.stored, name)
      && (r.result.Accepted? ==> r.save.hydrated && r.save.writes == r.save.stored && |r.save.writes| < |s.writes| && Climbing(r.save.server))
  {
    var w := s.writes[0];
    if Ask(s.server, w, step).Some? {
      AskTouchesOnly(s.server, w, step, name);
    }
    var after := ApplyQueued(s, delivery, step);
    if after.result.Accepted? {
      RebaseKeeps(s.writes[1..], w.name, if w.name in after.save.cache then after.save.cache[w.name].version else None, name);
    }
  }

  lemma SameForeign(a: Server, b: Server, w: QueuedWrite)
    requires RowSame(a, b, w.name) && Foreign(a, w)
    ensures Foreign(b, w)
  {
  }

  /** A flush, however far it gets, leaves a row alone that another client wrote since the first
      waiting write of its name was made, and that write waits on. */
  lemma {:induction false} FlushKeepsForeign(s: Save, deliveries: seq<Delivery>, step: nat, name: Name)
    requires s.hydrated && s.writes == s.stored && Climbing(s.server)
    requires First(s.stored, name).Some? && Foreign(s.server, First(s.stored, name).value)
    ensures var r := Flush(s, deliveries, step);
      && RowSame(s.server, r.save.server, name) && First(r.save.stored, name) == First(s.stored, name)
      && !r.result.Accepted?
    decreases |s.writes|
  {
    hide FlushStep, Overlay;
    var delivery := if |deliveries| > 0 then deliveries[0] else Acknowledged;
    FirstIffOverlay(s.stored, name);
    if s.writes[0].name == name {
      ForeignStepFails(s, delivery, step);
    } else {
      OtherStepKeeps(s, delivery, step, name);
      var one := FlushStep(s, delivery, step);
      if one.result.Accepted? {
        SameForeign(s.server, one.save.server, First(s.stored, name).value);
        FlushKeepsForeign(one.save, if |deliveries| > 0 then deliveries[1..] else [], step, name);
      }
    }
  }

  /** A write at once, with nothing waiting, from a client that saw another revision: refused if the
      server says so, queued if it could not be asked, and the row stays. */
  lemma {:induction false} WriteKeepsForeign(s: Save, name: Name, change: Change, reachable: bool, delivery: Delivery, step: nat)
    requires s.hydrated && s.writes == s.stored == [] && name in s.cache
    requires VersionOf(s.server, name) != s.cache[name].version && (change.Remove? ==> name in s.server.rows)
    ensures var r := Write(s, name, change, reachable, delivery, step);
      && r.save.server == s.server
      && (match delivery
          case Acknowledged => r.result.Conflict? && r.save.stored == []
          case Died => r.result.Gone? && r.save.stored == []
          case _ => r.result.Accepted? && r.save.stored == [QueuedWrite(name, change, s.cache[name].version)])
  {
    var item := QueuedWrite(name, change, s.cache[name].version);
    AskRefusesIff(s.server, item, step);
    assert [] + [item] == [item];
  }

  /** The row of a write that a flush got done is newer than the revision the write was made on. */
  lemma FlushedIsNewer(s: Save, delivery: Delivery, step: nat)
    requires Inv(s) && s.hydrated && |s.writes| > 0 && s.writes[0].change.Store? && delivery.Acknowledged?
    ensures var w, sv := s.writes[0], FlushStep(s, delivery, step).save.server;
      && ValueOf(sv, w.name) == Some(w.change.value)
      && VersionOf(sv, w.name).Some? && (w.expectedVersion.Some? ==> VersionOf(sv, w.name).value > w.expectedVersion.value)
  {
    var w := s.writes[0];
    assert FirstFine(s.server, s.stored, w.name);
    if !AlreadyDone(s.server, w) {
      AskDoes(s.server, w, step);
    }
  }
}
