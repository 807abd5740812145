/** The offline save queue of one player: a write-behind queue over a versioned key-value store,
    with lost acknowledgements and crashes. The object of `SaveQueue` is proved to follow it. */
module SaveModel {
  import opened Text

  type Name = Text

  /** A value is its JSON text. */
  datatype Change = Store(value: Text) | Remove

  datatype QueuedWrite = QueuedWrite(name: Name, change: Change, expectedVersion: Option<nat>)

  // ---- The store on the server -----------------------------------------------------------------

  datatype Row = Row(value: Text, version: nat)

  /** `newest` is the highest version a name was ever given; versions climb past it, also after a
      removal, so no old condition can meet a row that was reborn. */
  datatype Server = Server(rows: map<Name, Row>, newest: map<Name, nat>)

  function VersionOf(sv: Server, name: Name): Option<nat> {
    if name in sv.rows then Some(sv.rows[name].version) else None
  }

  function ValueOf(sv: Server, name: Name): Option<Text> {
    if name in sv.rows then Some(sv.rows[name].value) else None
  }

  function Newest(sv: Server, name: Name): nat {
    if name in sv.newest then sv.newest[name] else 0
  }

  /** A conditional put; `None` is a conflict. `step` is how far the version climbs. */
  function Put(sv: Server, name: Name, value: Text, expected: Option<nat>, step: nat): Option<Server> {
    if VersionOf(sv, name) != expected then None
    else
      var version := Newest(sv, name) + 1 + step;
      Some(Server(sv.rows[name := Row(value, version)], sv.newest[name := version]))
  }

  /** A conditional delete; deleting what is not there succeeds. */
  function Delete(sv: Server, name: Name, expected: nat): Option<Server> {
    if name !in sv.rows then Some(sv)
    else if sv.rows[name].version != expected then None
    else Some(sv.(rows := sv.rows - {name}))
  }

  /** What a write asks of the server when it is not already done. */
  function Ask(sv: Server, w: QueuedWrite, step: nat): Option<Server> {
    match w.change
    case Store(value) => Put(sv, w.name, value, w.expectedVersion, step)
    case Remove =>
      match w.expectedVersion
      case Some(expected) => Delete(sv, w.name, expected)
      case None => if w.name in sv.rows then None else Some(sv)
  }

  // ---- The client ------------------------------------------------------------------------------------

  datatype Cached = Cached(value: Option<Text>, version: Option<nat>)

  /** `stored` is the queue as the adapter keeps it; it survives a crash, the rest does not. */
  datatype Save = Save(
    cache: map<Name, Cached>, writes: seq<QueuedWrite>, hydrated: bool, stored: seq<QueuedWrite>, server: Server)

  /** How a request to the server ends: answered; never arrived; done, but the answer was lost;
      done, and the process died before it went on. */
  datatype Delivery = Acknowledged | NeverArrived | AnswerLost | Died

  datatype Result = Accepted | Conflict | Unavailable | Gone

  datatype Ended = Ended(save: Save, result: Result)

  function Overlay(writes: seq<QueuedWrite>, name: Name): Option<QueuedWrite> {
    if |writes| == 0 then None
    else if writes[|writes| - 1].name == name then Some(writes[|writes| - 1])
    else Overlay(writes[..|writes| - 1], name)
  }

  function Hydrate(s: Save): Save {
    if s.hydrated then s else s.(hydrated := true, writes := s.stored)
  }

  /** A new process: memory is gone, the adapter's queue and the server are not. */
  function Restart(s: Save): Save {
    s.(cache := map[], writes := [], hydrated := false)
  }

  function PersistQueue(s: Save, next: seq<QueuedWrite>): Save {
    s.(stored := next, writes := next)
  }

  function Fetched(s: Save, name: Name): Save {
    s.(cache := s.cache[name := Cached(ValueOf(s.server, name), VersionOf(s.server, name))])
  }

  /** What a read gives back; `None` inside is "no such entry". */
  datatype Reading = Read(value: Option<Text>) | Failed

  datatype ReadEnded = ReadEnded(save: Save, reading: Reading)

  function ReadName(s: Save, name: Name, reachable: bool): ReadEnded {
    var h := Hydrate(s);
    match Overlay(h.writes, name)
    case Some(staged) => ReadEnded(h, Read(if staged.change.Remove? then None else Some(staged.change.value)))
    case None =>
      if reachable then ReadEnded(Fetched(h, name), Read(ValueOf(h.server, name)))
      else if name in h.cache then ReadEnded(h, Read(h.cache[name].value))
      else ReadEnded(h, Failed)
  }

  /** The revision a new write builds on. */
  function BaseVersion(s: Save, name: Name): Option<nat> {
    match Overlay(s.writes, name)
    case Some(previous) =>
      if previous.change.Remove? then None
      else Some((if previous.expectedVersion.Some? then previous.expectedVersion.value else 0) + 1)
    case None => if name in s.cache then s.cache[name].version else None
  }

  /** The cache after the write was done. */
  function Noted(s: Save, w: QueuedWrite, sv: Server): Save {
    s.(server := sv,
       cache := s.cache[w.name := if w.change.Remove? then Cached(None, None) else Cached(Some(w.change.value), VersionOf(sv, w.name))])
  }

  /** `apply` without recovery: the write goes straight to the server. */
  function ApplyNew(s: Save, w: QueuedWrite, delivery: Delivery, step: nat): Ended {
    match Ask(s.server, w, step)
    case None =>
      (match delivery
       case Acknowledged => Ended(s, Conflict)
       case Died => Ended(Restart(s), Gone)
       case _ => Ended(s, Unavailable))
    case Some(sv) =>
      match delivery
      case Acknowledged => Ended(Noted(s, w, sv), Accepted)
      case NeverArrived => Ended(s, Unavailable)
      case AnswerLost => Ended(s.(server := sv), Unavailable)
      case Died => Ended(Restart(s.(server := sv)), Gone)
  }

  /** `store` or `remove`. A write that could not be sent, or whose answer was lost, is queued. */
  function Write(s: Save, name: Name, change: Change, reachable: bool, delivery: Delivery, step: nat): Ended {
    var h := Hydrate(s);
    var read := if name in h.cache || Overlay(h.writes, name).Some? then ReadEnded(h, Read(None)) else ReadName(h, name, reachable);
    if read.reading.Failed? then Ended(read.save, Unavailable)
    else
      var known := read.save;
      var item := QueuedWrite(name, change, BaseVersion(known, name));
      if |known.writes| > 0 then Ended(PersistQueue(known, known.writes + [item]), Accepted)
      else
        var applied := ApplyNew(known, item, delivery, step);
        if applied.result.Unavailable? then Ended(PersistQueue(applied.save, applied.save.writes + [item]), Accepted)
        else applied
  }

  /** The desired state already exists at a newer revision: the write was done before. */
  predicate AlreadyDone(sv: Server, w: QueuedWrite) {
    match w.change
    case Remove => w.name !in sv.rows
    case Store(value) =>
      && w.name in sv.rows && sv.rows[w.name].value == value
      && sv.rows[w.name].version > (if w.expectedVersion.Some? then w.expectedVersion.value else 0)
  }

  /** The first later write of the name, on the revision that was actually committed. */
  function Rebase(writes: seq<QueuedWrite>, name: Name, version: Option<nat>): (r: seq<QueuedWrite>)
    ensures |r| == |writes|
  {
    if |writes| == 0 then []
    else if writes[0].name == name then [writes[0].(expectedVersion := version)] + writes[1..]
    else [writes[0]] + Rebase(writes[1..], name, version)
  }

  /** The first write leaves the queue. */
  function Finished(s: Save): Save
    requires |s.writes| > 0
  {
    var name := s.writes[0].name;
    PersistQueue(s, Rebase(s.writes[1..], name, if name in s.cache then s.cache[name].version else None))
  }

  /** `apply` with recovery, for the first queued write. */
  function ApplyQueued(s: Save, delivery: Delivery, step: nat): Ended
    requires |s.writes| > 0
  {
    var w := s.writes[0];
    if delivery.NeverArrived? then Ended(s, Unavailable)
    else if AlreadyDone(s.server, w) then
      if delivery.Acknowledged? then Ended(Noted(s, w, s.server), Accepted)
      else if delivery.AnswerLost? then Ended(s, Unavailable)
      else Ended(Restart(s), Gone)
    else ApplyNew(s, w, delivery, step)
  }

  /** One round of `flush`. */
  function FlushStep(s: Save, delivery: Delivery, step: nat): Ended
    requires |s.writes| > 0
  {
    var applied := ApplyQueued(s, delivery, step);
    if applied.result.Accepted? then Ended(Finished(applied.save), Accepted) else applied
  }

  /** `flush`: rounds until the queue is empty or one fails. Missing deliveries are acknowledged. */
  function Flush(s: Save, deliveries: seq<Delivery>, step: nat): Ended
    decreases |s.writes|
  {
    if |s.writes| == 0 then Ended(s, Accepted)
    else
      var one := FlushStep(s, if |deliveries| > 0 then deliveries[0] else Acknowledged, step);
      if !one.result.Accepted? then one else Flush(one.save, if |deliveries| > 0 then deliveries[1..] else [], step)
  }
}
