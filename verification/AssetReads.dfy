/** What each way of opening an encrypted file does, as a function of what the host answers.
    The client object of `AssetClient` is proved to follow these functions. */
module AssetReads {
  import opened Text
  import opened AssetFormat
  import opened BodyReader
  import opened Pieces
  import opened AssetFile

  datatype Error = Refused | Network | Http | Corrupt | PastEnd

  datatype Outcome<+T> = Done(value: T) | Changed | Failed(error: Error) {
    predicate IsFailure() {
      !Done?
    }

    function PropagateFailure<U>(): (r: Outcome<U>)
      requires IsFailure()
      ensures r.IsFailure()
    {
      if Changed? then Changed else Failed(error)
    }

    function Extract(): T
      requires !IsFailure()
    {
      value
    }
  }

  // ---- HTTP -------------------------------------------------------------------------------------

  /** Inclusive, `to` omitted for an open end. */
  datatype Range = Range(from: nat, to: Option<int>)

  datatype Request = Request(head: bool, range: Option<Range>, ifRange: Option<Text>)

  datatype ContentRange = ContentRange(start: nat, end: nat, total: Option<nat>)

  /** `Refusal` is a request that failed without an answer. */
  datatype Reply =
    | Refusal
    | Reply(status: int, etag: Option<Text>, range: Option<ContentRange>, length: Option<nat>, encoded: bool,
            chunks: seq<Bytes>, breaks: bool)

  /** What the host does with the n-th request, whatever that may be. */
  type Host = (nat, Request) -> Reply

  /** The client's settings: in a browser only `Range` crosses to another origin. */
  datatype Client = Client(file: File, corsSafe: bool, host: Host)

  function Answered(c: Client, n: nat, request: Request): Outcome<Reply> {
    var reply := c.host(n, request);
    if reply.Refusal? then Failed(Refused)
    else if reply.status !in {200, 206, 416} then Failed(Http)
    else Done(reply)
  }

  /** A strong tag may go into `If-Range`; a weak one starts with `W/`. */
  predicate IsStrong(etag: Option<Text>) {
    etag.Some? && |etag.value| > 0 && !(|etag.value| >= 2 && etag.value[0] == 0x57 && etag.value[1] == 0x2F)
  }

  datatype Expected = Expected(
    from: nat, to: Option<int>, total: Option<nat>, etag: Option<Text>, ifRangeSent: bool, corsSafe: bool)

  datatype Accepted = Accepted(total: Option<nat>, etag: Option<Text>)

  function OrElse(a: Option<Text>, b: Option<Text>): Option<Text> {
    if a.Some? then a else b
  }

  function CheckRanged(status: int, etag: Option<Text>, range: Option<ContentRange>, e: Expected): Outcome<Accepted> {
    if status == 200 then
      if e.ifRangeSent || (e.etag.Some? && etag != e.etag) then Changed else Failed(Http)
    else if status == 416 then
      if e.total.Some? then Changed else Failed(Corrupt)
    else if e.etag.Some? && etag != e.etag && (etag.Some? || !e.ifRangeSent) then Changed
    else
      match range
      case None => if !e.corsSafe then Failed(Http) else Done(Accepted(e.total, OrElse(etag, e.etag)))
      case Some(r) =>
        if r.total.None? then Failed(Http)
        else if e.total.Some? && r.total != e.total then Changed
        else
          var last := r.total.value - 1;
          var end := if e.to.Some? then Min(e.to.value, last) else last;
          if r.start != e.from || r.end != end then Failed(Http)
          else Done(Accepted(r.total, OrElse(etag, e.etag)))
  }

  /** A ranged answer that was accepted, and its body. */
  datatype Part = Part(accepted: Accepted, left: Bytes)

  function Ranged(
    c: Client, n: nat, range: Range, ifRange: Option<Text>, total: Option<nat>, etag: Option<Text>, corsSafe: bool): Outcome<Part>
  {
    match Answered(c, n, Request(false, Some(range), ifRange))
    case Done(reply) =>
      (match CheckRanged(reply.status, reply.etag, reply.range,
                         Expected(range.from, range.to, total, etag, ifRange.Some?, corsSafe))
       case Done(accepted) => Done(Part(accepted, Flatten(reply.chunks)))
       case Changed => Changed
       case Failed(error) => Failed(error))
    case Changed => Changed
    case Failed(error) => Failed(error)
  }

  // ---- Opening --------------------------------------------------------------------------------------

  /** One opened read: `left` is the body from the first segment of the plan on. */
  datatype Position = Position(decryptor: Decryptor, etag: Option<Text>, plan: Plan, left: Bytes)

  /** An outcome, and how many requests have been made by then. */
  datatype Ran<+T> = Ran(outcome: Outcome<T>, requests: nat)

  /** The header, the plan and the decryptor from a body that starts with the file. */
  function AtStart(left: Bytes, total: nat, etag: Option<Text>, window: Window): Outcome<Position> {
    var length := Min(HEADER_LENGTH, total);
    if |left| < length then Failed(Network)
    else if PlanWindow(total, window).None? || OpenDecryptor(left[..length], total).None? then Failed(Corrupt)
    else
      Done(Position(OpenDecryptor(left[..length], total).value, etag, PlanWindow(total, window).value, left[length..]))
  }

  function Segments(c: Client, n: nat, d: Decryptor, plan: Plan, etag: Option<Text>): Ran<Position> {
    var range := Range(CipherStart(plan.first), Some(SegmentEnd(plan.last, d.total) - 1));
    var ifRange := if !c.corsSafe && IsStrong(etag) then etag else None;
    match Ranged(c, n, range, ifRange, Some(d.total), etag, c.corsSafe)
    case Done(part) => Ran(Done(Position(d, etag, plan, part.left)), n + 1)
    case Changed => Ran(Changed, n + 1)
    case Failed(error) => Ran(Failed(error), n + 1)
  }

  /** How far the first request reaches when nothing is known yet. */
  function FirstTo(window: Window): Option<int> {
    if SegmentOf(window.start) != 0 then Some(HEADER_LENGTH - 1)
    else if window.end.None? then None
    else Some(FullEnd(SegmentOf(Max(window.end.value - 1, 0))) - 1)
  }

  function Conditional(c: Client, n: nat, window: Window, resume: Option<Text>): Ran<Position> {
    var ifRange := if IsStrong(resume) then resume else None;
    match Ranged(c, n, Range(0, FirstTo(window)), ifRange, None, resume, false)
    case Changed => Ran(Changed, n + 1)
    case Failed(error) => Ran(Failed(error), n + 1)
    case Done(part) =>
      match part.accepted.total
      case None => Ran(Failed(Http), n + 1)
      case Some(total) =>
        match AtStart(part.left, total, part.accepted.etag, window)
        case Changed => Ran(Changed, n + 1)
        case Failed(error) => Ran(Failed(error), n + 1)
        case Done(p) =>
          if SegmentOf(window.start) == 0 && p.plan.first == 0 then Ran(Done(p), n + 1)
          else Segments(c, n + 1, p.decryptor, p.plan, part.accepted.etag)
  }

  function Safelisted(c: Client, n: nat, window: Window, total: nat, etag: Option<Text>): Ran<Position> {
    match PlanWindow(total, window)
    case None => Ran(Failed(Corrupt), n)
    case Some(plan) =>
      var to := if plan.first == 0 then SegmentEnd(plan.last, total) - 1 else HEADER_LENGTH - 1;
      match Ranged(c, n, Range(0, Some(to)), None, Some(total), etag, true)
      case Changed => Ran(Changed, n + 1)
      case Failed(error) => Ran(Failed(error), n + 1)
      case Done(part) =>
        match AtStart(part.left, total, etag, window)
        case Changed => Ran(Changed, n + 1)
        case Failed(error) => Ran(Failed(error), n + 1)
        case Done(p) =>
          if plan.first == 0 then Ran(Done(p), n + 1) else Segments(c, n + 1, p.decryptor, plan, etag)
  }

  function Whole(c: Client, n: nat, window: Window, total: nat, etag: Option<Text>): Ran<Position> {
    match Answered(c, n, Request(false, None, None))
    case Changed => Ran(Changed, n + 1)
    case Failed(error) => Ran(Failed(error), n + 1)
    case Done(reply) =>
      if reply.status != 200 then Ran(Failed(Http), n + 1)
      else if etag.Some? && reply.etag != etag then Ran(Changed, n + 1)
      else if PlanWindow(total, window).None? then Ran(Failed(Corrupt), n + 1)
      else
        match AtStart(Flatten(reply.chunks), total, etag, window)
        case Changed => Ran(Changed, n + 1)
        case Failed(error) => Ran(Failed(error), n + 1)
        case Done(p) =>
          var skipped := CipherStart(p.plan.first) - HEADER_LENGTH;
          if |p.left| < skipped then Ran(Failed(Network), n + 1)
          else Ran(Done(p.(left := p.left[skipped..])), n + 1)
  }

  /** `openEncryptedWith`: conditional requests, or a HEAD and then ranges, or the whole file. */
  function OpenEncrypted(c: Client, n: nat, window: Window, resume: Option<Text>): Ran<Position> {
    if !c.corsSafe then Conditional(c, n, window, resume)
    else
      match Answered(c, n, Request(true, None, None))
      case Changed => Ran(Changed, n + 1)
      case Failed(error) => Ran(Failed(error), n + 1)
      case Done(head) =>
        if head.status != 200 then Ran(Failed(Http), n + 1)
        else if head.encoded || head.length.None? then Ran(Failed(Http), n + 1)
        else if resume.Some? && head.etag != resume then Ran(Changed, n + 1)
        else
          var ranged := Safelisted(c, n + 1, window, head.length.value, head.etag);
          if ranged.outcome == Failed(Refused) then Whole(c, ranged.requests, window, head.length.value, head.etag)
          else ranged
  }

  // ---- Emitting ---------------------------------------------------------------------------------------

  /** What was released, and the error that stopped it, if any. */
  datatype Emitted = Emitted(bytes: Bytes, error: Option<Error>)

  /** How many bytes segment `i` takes. */
  function ExtentLength(d: Decryptor, i: nat): int {
    SegmentEnd(i, d.total) - CipherStart(i)
  }

  function EmitSegments(c: Client, p: Position, i: nat, left: Bytes): Emitted
    decreases p.plan.last - i
  {
    if i > p.plan.last then Emitted([], None)
    else
      var length := ExtentLength(p.decryptor, i);
      if length < 0 || |left| < length then Emitted([], Some(Network))
      else
        match OpenSegment(c.file, p.decryptor, i, left[..length])
        case None => Emitted([], Some(Corrupt))
        case Some(plain) =>
          var later := EmitSegments(c, p, i + 1, left[length..]);
          later.(bytes := PartOf(plain, p.plan, i) + later.bytes)
  }

  predicate Verifies(c: Client, p: Position, i: nat, left: Bytes) {
    var length := ExtentLength(p.decryptor, i);
    0 <= length <= |left| && OpenSegment(c.file, p.decryptor, i, left[..length]).Some?
  }

  lemma EmitsStep(c: Client, p: Position, i: nat, left: Bytes)
    requires i <= p.plan.last
    ensures !Verifies(c, p, i, left) ==>
      EmitSegments(c, p, i, left) == Emitted([], Some(if 0 <= ExtentLength(p.decryptor, i) <= |left| then Corrupt else Network))
    ensures Verifies(c, p, i, left) ==>
      var length := ExtentLength(p.decryptor, i);
      var later := EmitSegments(c, p, i + 1, left[length..]);
      EmitSegments(c, p, i, left).error == later.error
      && EmitSegments(c, p, i, left).bytes
           == PartOf(OpenSegment(c.file, p.decryptor, i, left[..length]).value, p.plan, i) + later.bytes
  {
  }

  function Emit(c: Client, p: Position): Emitted {
    EmitSegments(c, p, p.plan.first, p.left)
  }

  // ---- Reading and downloading ------------------------------------------------------------------------

  const MAX_RESTARTS: nat := 3

  function ReadAttempt(c: Client, n: nat, window: Window): Ran<Bytes> {
    var started := OpenEncrypted(c, n, window, None);
    match started.outcome
    case Changed => Ran(Changed, started.requests)
    case Failed(error) => Ran(Failed(error), started.requests)
    case Done(p) =>
      match Emit(c, p).error
      case Some(error) => Ran(Failed(error), started.requests)
      case None => Ran(Done(Emit(c, p).bytes), started.requests)
  }

  /** `readEncryptedRange`, from the given restart on. */
  function ReadRange(c: Client, n: nat, window: Window, restart: nat): Ran<Bytes>
    decreases MAX_RESTARTS - restart
  {
    var attempt := ReadAttempt(c, n, window);
    if !attempt.outcome.Changed? then attempt
    else if restart >= MAX_RESTARTS then Ran(Failed(Http), attempt.requests)
    else ReadRange(c, attempt.requests, window, restart + 1)
  }

  /** One attempt at a download, and the sink after it. */
  datatype Attempt = Attempt(outcome: Outcome<nat>, sink: Bytes, requests: nat)

  function DownloadAttempt(c: Client, n: nat, sink: Bytes, written: nat, resume: Option<Text>): Attempt {
    var started := OpenEncrypted(c, n, Window(written, None), resume);
    match started.outcome
    case Changed => Attempt(Changed, sink, started.requests)
    case Failed(error) => Attempt(Failed(error), sink, started.requests)
    case Done(p) =>
      var filled := sink + Emit(c, p).bytes;
      match Emit(c, p).error
      case Some(error) => Attempt(Failed(error), filled, started.requests)
      case None =>
        Attempt(if written > p.decryptor.plaintextLength then Failed(PastEnd) else Done(p.decryptor.plaintextLength),
                filled, started.requests)
  }

  /** A download: its result, the bytes in the sink, and how many attempts were made. */
  datatype Download = Download(result: Outcome<nat>, sink: Bytes, attempts: nat)

  /** `downloadEncrypted`, from the given restart on. A change empties the sink and forgets what
      was to be resumed. */
  function DownloadFrom(c: Client, n: nat, sink: Bytes, written: nat, resume: Option<Text>, restart: nat): Download
    decreases MAX_RESTARTS - restart
  {
    var attempt := DownloadAttempt(c, n, sink, written, resume);
    if !attempt.outcome.Changed? then Download(attempt.outcome, attempt.sink, restart + 1)
    else if restart >= MAX_RESTARTS then Download(Failed(Http), attempt.sink, restart + 1)
    else DownloadFrom(c, attempt.requests, if written > 0 then [] else attempt.sink, 0, None, restart + 1)
  }

  /** What an attempt starts from. */
  datatype Before = Before(requests: nat, sink: Bytes, written: nat, resume: Option<Text>)

  lemma {:induction false} OneDownload(c: Client, b: Before, restart: nat, attempt: Attempt)
    requires attempt == DownloadAttempt(c, b.requests, b.sink, b.written, b.resume)
    ensures DownloadFrom(c, b.requests, b.sink, b.written, b.resume, restart) ==
      if !attempt.outcome.Changed? then Download(attempt.outcome, attempt.sink, restart + 1)
      else if restart >= MAX_RESTARTS then Download(Failed(Http), attempt.sink, restart + 1)
      else DownloadFrom(c, attempt.requests, if b.written > 0 then [] else attempt.sink, 0, None, restart + 1)
  {
  }
}
