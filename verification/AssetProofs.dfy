/** A read or a download that succeeds is right, whatever the host does; and against a host that
    serves one version it succeeds. */
module AssetProofs {
  import opened Text
  import opened AssetFormat
  import opened BodyReader
  import opened Pieces
  import opened AssetFile
  import opened AssetReads

  // ---- Hosts the proofs speak of --------------------------------------------------------------------

  /** Where an answer to a range ends. */
  function RangeEnd(total: nat, range: Range): int {
    if range.to.Some? then Min(range.to.value, total - 1) else total - 1
  }

  /** An answer of a host that serves this version, under one tag or none, in any chunks. It may
      keep `Content-Range` to itself or refuse ranges where the client is prepared for that. */
  predicate Serves(reply: Reply, r: Request, stored: Bytes, etag: Option<Text>, corsSafe: bool) {
    if r.head then
      reply.Reply? && reply.status == 200 && reply.etag == etag && reply.length == Some(|stored|) && !reply.encoded
    else if r.range.None? then
      reply.Reply? && reply.status == 200 && reply.etag == etag && Flatten(reply.chunks) == stored
    else if reply.Refusal? then corsSafe
    else
      r.range.value.from < |stored| && r.range.value.from <= RangeEnd(|stored|, r.range.value) ==>
        && reply.status == 206 && reply.etag == etag
        && (if reply.range.None? then corsSafe
            else reply.range.value
                   == ContentRange(r.range.value.from, RangeEnd(|stored|, r.range.value), Some(|stored|)))
        && Flatten(reply.chunks) == stored[r.range.value.from..RangeEnd(|stored|, r.range.value) + 1]
  }

  /** The host serves this version with its n-th answer. */
  ghost predicate ServesAt(c: Client, n: nat, stored: Bytes, etag: Option<Text>) {
    forall r: Request {:trigger c.host(n, r)} ::
      r.ifRange.None? || r.ifRange == etag ==> Serves(c.host(n, r), r, stored, etag, c.corsSafe)
  }

  /** The host serves one version throughout. */
  ghost predicate Unchanged(c: Client, stored: Bytes, etag: Option<Text>) {
    forall n: nat :: ServesAt(c, n, stored, etag)
  }

  predicate StartsAsNamed(tag: Option<Text>, body: Bytes, file: File) {
    tag.Some? && tag.value in file.tags && |body| >= HEADER_LENGTH ==> body[..HEADER_LENGTH] == file.tags[tag.value]
  }

  /** A tag names one version: an answer that carries it, or that a matching `If-Range` let
      through, starts with that version's header if it starts with the file. */
  predicate NamesHeader(reply: Reply, r: Request, file: File) {
    reply.Reply? && !r.head && (r.range.Some? ==> r.range.value.from == 0) ==>
      StartsAsNamed(if reply.status == 206 && reply.etag.None? then r.ifRange else reply.etag, Flatten(reply.chunks), file)
  }

  ghost predicate TagsName(c: Client) {
    forall n: nat, r: Request {:trigger c.host(n, r)} :: NamesHeader(c.host(n, r), r, c.file)
  }

  // ---- One answer -----------------------------------------------------------------------------------------

  /** The answer shows that the object is another than the one whose length or tag is known. */
  predicate Moved(reply: Reply, ifRange: Option<Text>, total: Option<nat>, etag: Option<Text>) {
    reply.Reply? &&
    match reply.status
    case 200 => ifRange.Some? || (etag.Some? && reply.etag != etag)
    case 416 => total.Some?
    case 206 =>
      || (etag.Some? && reply.etag.Some? && reply.etag != etag)
      || (etag.Some? && reply.etag.None? && ifRange.None?)
      || (total.Some? && reply.range.Some? && reply.range.value.total.Some? && reply.range.value.total != total)
    case _ => false
  }

  /** The answer says that its body is just the range that was asked for; to a client in a browser it
      may leave that out. */
  predicate IsRange(reply: Reply, range: Range, corsSafe: bool) {
    && reply.Reply? && reply.status == 206
    && (match reply.range
        case None => corsSafe
        case Some(ContentRange(_, _, None)) => false
        case Some(ContentRange(start, end, Some(total))) => start == range.from && end == RangeEnd(total, range))
  }

  /** What every answer to a request for a range leads to, and the error if it is of no use. */
  lemma RangedIff(
    c: Client, n: nat, range: Range, ifRange: Option<Text>, total: Option<nat>, etag: Option<Text>, corsSafe: bool)
    ensures var reply, r := c.host(n, Request(false, Some(range), ifRange)), Ranged(c, n, range, ifRange, total, etag, corsSafe);
      if Moved(reply, ifRange, total, etag) then r == Changed
      else if IsRange(reply, range, corsSafe) then
        r == Done(Part(Accepted(if reply.range.Some? then reply.range.value.total else total,
                                if reply.etag.Some? then reply.etag else etag), Flatten(reply.chunks)))
      else r == Failed(if reply.Refusal? then Refused else if reply.status == 416 then Corrupt else Http)
  {
  }

  /** The start of a file is refused as cut off, or as none: no file has that length, or its first byte
      is not the format's. */
  lemma AtStartIff(left: Bytes, total: nat, etag: Option<Text>, window: Window)
    ensures var r := AtStart(left, total, etag, window);
      if |left| < Min(40, total) then r == Failed(Network)
      else if !(exists length: nat :: length <= MAX_PLAIN && CipherLength(length) == total) || left[0] != 0x28 then r == Failed(Corrupt)
      else r.Done? && r.value.left == left[40..] && r.value.decryptor.header == left[..40]
  {
    AcceptedExactly(total);
  }

  /** In a browser a file is opened only from a HEAD that tells a length, of a body sent as it is, and
      of the version to be resumed. */
  lemma HeadIff(c: Client, n: nat, window: Window, resume: Option<Text>)
    requires c.corsSafe
    ensures var head, r := c.host(n, Request(true, None, None)), OpenEncrypted(c, n, window, resume);
      if head.Refusal? then r == Ran(Failed(Refused), n + 1)
      else if head.status != 200 || head.encoded || head.length.None? then r == Ran(Failed(Http), n + 1)
      else if resume.Some? && head.etag != resume then r == Ran(Changed, n + 1)
      else r.requests > n + 1 || PlanWindow(head.length.value, window).None?
  {
    hide Ranged, AtStart, PlanWindow;
  }

  /** How much the first request asks for outside a browser: the header alone if the window starts
      behind the first segment, else everything up to the end of the segment that its last byte is in. */
  lemma FirstToIs(window: Window, i: nat)
    requires window.end.Some? ==> PlainStart(i) <= Max(window.end.value - 1, 0) < PlainStart(i + 1)
    ensures FirstTo(window) ==
      if window.start >= 65464 then Some(39) else if window.end.None? then None else Some(65536 * (i + 1) - 1)
  {
    if window.end.Some? {
      SegmentOfIsTheOne(Max(window.end.value - 1, 0) + 1, Max(window.end.value - 1, 0), i);
    }
  }

  // ---- Emitting -----------------------------------------------------------------------------------------

  ghost predicate Ready(p: Position, window: Window) {
    WellFormed(p.decryptor) && PlanWindow(p.decryptor.total, window) == Some(p.plan)
  }

  lemma ExtentIsLength(d: Decryptor, i: nat)
    requires WellFormed(d) && i < d.segments
    ensures ExtentLength(d, i) >= TAG_LENGTH
  {
    WellFormedLengths(d);
    SegmentsPartition(d.plaintextLength, i);
  }

  /** What was released before segment `i`, if those before it verified. */
  predicate Before(file: File, p: Position, i: nat, before: Bytes) {
    if i == p.plan.first then before == []
    else Verified(file, p.decryptor, i) && before == Released(file.plains[p.decryptor.header], p.plan, i)
  }

  lemma OneMore(file: File, p: Position, window: Window, i: nat, before: Bytes, segment: Bytes)
    requires Authentic(file) && Ready(p, window) && p.plan.first <= i <= p.plan.last && Before(file, p, i, before)
    requires OpenSegment(file, p.decryptor, i, segment).Some?
    ensures Before(file, p, i + 1, before + PartOf(OpenSegment(file, p.decryptor, i, segment).value, p.plan, i))
  {
    PlanStarts(p.decryptor.total, window);
    SegmentVerifies(file, p.decryptor, i, segment);
    var plain := file.plains[p.decryptor.header];
    ReleasedNothing(plain, p.decryptor.total, window);
    ReleasedMore(plain, p.plan, i);
  }

  /** Released bytes are a beginning of what the window asks of the header's version. */
  predicate GenuinePart(file: File, p: Position, window: Window, bytes: Bytes) {
    bytes != [] ==>
      p.decryptor.header in file.plains && bytes <= Slice(file.plains[p.decryptor.header], Window(window.start, None))
  }

  /** The released bytes are the slice of the header's version; without an end to the window, the
      length told is that version's. */
  predicate WholeSlice(file: File, p: Position, window: Window, bytes: Bytes) {
    && p.decryptor.header in file.plains && bytes == Slice(file.plains[p.decryptor.header], window)
    && (window.end.None? ==> p.decryptor.plaintextLength == |file.plains[p.decryptor.header]|)
  }

  lemma BeforeIsGenuine(file: File, p: Position, window: Window, i: nat, before: Bytes)
    requires Ready(p, window) && Before(file, p, i, before)
    ensures GenuinePart(file, p, window, before)
    ensures i == p.plan.last + 1 && p.plan.first <= p.plan.last ==> WholeSlice(file, p, window, before)
  {
    if before != [] {
      ReleasedIsPrefix(file.plains[p.decryptor.header], p.decryptor.total, window, i);
    }
    if i == p.plan.last + 1 && p.plan.first <= p.plan.last {
      ReleasedAll(file, p.decryptor, window);
    }
  }

  lemma Join(a: Bytes, b: Bytes, d: Bytes)
    ensures a + (b + d) == a + b + d
  {
  }

  /** What is released after `before`, judged together with it. */
  predicate Judged(c: Client, p: Position, window: Window, bytes: Bytes, done: bool) {
    GenuinePart(c.file, p, window, bytes) && (done ==> WholeSlice(c.file, p, window, bytes))
  }

  lemma {:induction false} EmitsGenuine(c: Client, p: Position, window: Window, i: nat, left: Bytes, before: Bytes)
    requires Authentic(c.file) && Ready(p, window) && p.plan.first <= p.plan.last
    requires p.plan.first <= i <= p.plan.last + 1 && Before(c.file, p, i, before)
    ensures var emitted := EmitSegments(c, p, i, left);
      Judged(c, p, window, before + emitted.bytes, emitted.error.None?)
    decreases p.plan.last + 1 - i
  {
    hide Authentic, Ready, Before, GenuinePart, WholeSlice, PartOf, OpenSegment;
    BeforeIsGenuine(c.file, p, window, i, before);
    assert before + [] == before;
    if i <= p.plan.last {
      EmitsStep(c, p, i, left);
      if Verifies(c, p, i, left) {
        var length := ExtentLength(p.decryptor, i);
        var part := PartOf(OpenSegment(c.file, p.decryptor, i, left[..length]).value, p.plan, i);
        OneMore(c.file, p, window, i, before, left[..length]);
        EmitsGenuine(c, p, window, i + 1, left[length..], before + part);
        Join(before, part, EmitSegments(c, p, i + 1, left[length..]).bytes);
      }
    }
  }

  /** Against any host: if every segment verified, what was released is the slice of the version
      the header names; if not, what was released before is a beginning of it. */
  lemma EmitIsGenuine(c: Client, p: Position, window: Window)
    requires Authentic(c.file) && Ready(p, window)
    ensures Judged(c, p, window, Emit(c, p).bytes, Emit(c, p).error.None?)
  {
    PlanStarts(p.decryptor.total, window);
    EmitsGenuine(c, p, window, p.plan.first, p.left, []);
    assert [] + Emit(c, p).bytes == Emit(c, p).bytes;
  }

  predicate StoredFrom(stored: Bytes, from: nat, to: nat, left: Bytes) {
    from <= to <= |stored| && stored[from..to] <= left
  }

  /** The body stands at stored segment `i` and reaches to the end of the plan. */
  predicate HoldsFrom(stored: Bytes, d: Decryptor, plan: Plan, i: nat, left: Bytes) {
    && d.total == |stored| && plan.last < d.segments
    && (i <= plan.last ==> StoredFrom(stored, CipherStart(i), SegmentEnd(plan.last, |stored|), left))
  }

  lemma PrefixSlice(stored: Bytes, from: nat, to: nat, left: Bytes, length: nat)
    requires StoredFrom(stored, from, to, left) && length <= to - from
    ensures length <= |left| && left[..length] == stored[from..from + length]
    ensures StoredFrom(stored, from + length, to, left[length..])
  {
    var whole := stored[from..to];
    assert left[..|whole|] == whole;
    assert left[..length] == whole[..length];
    SliceOfSlice(stored, from, to, 0, length);
    SliceOfSlice(stored, from, to, length, to - from);
    assert left[length..][..|whole| - length] == whole[length..];
  }

  lemma SegmentsInOrder(length: nat, i: nat, j: nat)
    requires i <= j < SegmentsFor(length)
    ensures CipherStart(i) < SegmentEnd(i, CipherLength(length)) <= SegmentEnd(j, CipherLength(length)) <= CipherLength(length)
    ensures i < j ==> SegmentEnd(i, CipherLength(length)) == CipherStart(i + 1)
  {
    SegmentsPartition(length, i);
    SegmentsPartition(length, j);
  }

  lemma HoldsNext(file: File, d: Decryptor, plan: Plan, i: nat, left: Bytes)
    requires Stored(file, d.header) && WellFormed(d) && i <= plan.last
    requires HoldsFrom(file.stored[d.header], d, plan, i, left)
    ensures var length := ExtentLength(d, i);
      && 0 <= length <= |left| && HoldsFrom(file.stored[d.header], d, plan, i + 1, left[length..])
      && OpenSegment(file, d, i, left[..length]).Some?
  {
    var stored, plain := file.stored[d.header], file.plains[d.header];
    WellFormedLengths(d);
    LengthAccepted(|plain|);
    SegmentsInOrder(|plain|, i, plan.last);
    assert StoredSegment(file, d.header, i);
    PrefixSlice(stored, CipherStart(i), SegmentEnd(plan.last, |stored|), left, ExtentLength(d, i));
  }

  lemma {:induction false} EmitsAll(c: Client, p: Position, i: nat, left: Bytes)
    requires Stored(c.file, p.decryptor.header) && WellFormed(p.decryptor)
    requires HoldsFrom(c.file.stored[p.decryptor.header], p.decryptor, p.plan, i, left)
    ensures EmitSegments(c, p, i, left).error.None?
    decreases p.plan.last + 1 - i
  {
    if i <= p.plan.last {
      HoldsNext(c.file, p.decryptor, p.plan, i, left);
      EmitsAll(c, p, i + 1, left[ExtentLength(p.decryptor, i)..]);
    }
  }

  // ---- Opening: any host -----------------------------------------------------------------------------------

  lemma AtStartReady(left: Bytes, total: nat, etag: Option<Text>, window: Window)
    requires AtStart(left, total, etag, window).Done?
    ensures var p := AtStart(left, total, etag, window).value;
      && Ready(p, window) && p.decryptor.total == total && p.etag == etag
      && |left| >= HEADER_LENGTH && p.decryptor.header == left[..HEADER_LENGTH] && p.left == left[HEADER_LENGTH..]
  {
    AcceptedExactly(total);
  }

  /** The tag an answer was held against names the header that was used. */
  predicate Named(file: File, r: Outcome<Position>, etag: Option<Text>) {
    r.Done? && etag.Some? && etag.value in file.tags ==> r.value.decryptor.header == file.tags[etag.value]
  }

  lemma RangedNamed(c: Client, n: nat, range: Range, ifRange: Option<Text>, total: Option<nat>, etag: Option<Text>, corsSafe: bool)
    requires TagsName(c) && range.from == 0 && (ifRange.Some? ==> ifRange == etag)
    requires Ranged(c, n, range, ifRange, total, etag, corsSafe).Done?
    ensures StartsAsNamed(etag, Ranged(c, n, range, ifRange, total, etag, corsSafe).value.left, c.file)
  {
    var r := Request(false, Some(range), ifRange);
    assert NamesHeader(c.host(n, r), r, c.file);
  }

  lemma SegmentsReady(c: Client, n: nat, d: Decryptor, plan: Plan, etag: Option<Text>, window: Window)
    requires WellFormed(d) && PlanWindow(d.total, window) == Some(plan)
    ensures var r := Segments(c, n, d, plan, etag).outcome;
      r.Done? ==> Ready(r.value, window) && r.value.decryptor == d
  {
  }

  lemma ConditionalReady(c: Client, n: nat, window: Window, resume: Option<Text>)
    ensures var r := Conditional(c, n, window, resume).outcome;
      && (r.Done? ==> Ready(r.value, window))
      && (TagsName(c) ==> Named(c.file, r, resume))
  {
    var ifRange := if IsStrong(resume) then resume else None;
    var ranged := Ranged(c, n, Range(0, FirstTo(window)), ifRange, None, resume, false);
    if ranged.Done? && ranged.value.accepted.total.Some? {
      var part := ranged.value;
      var started := AtStart(part.left, part.accepted.total.value, part.accepted.etag, window);
      if started.Done? {
        AtStartReady(part.left, part.accepted.total.value, part.accepted.etag, window);
        SegmentsReady(c, n + 1, started.value.decryptor, started.value.plan, part.accepted.etag, window);
      }
      if TagsName(c) {
        RangedNamed(c, n, Range(0, FirstTo(window)), ifRange, None, resume, false);
      }
    }
  }

  lemma SafelistedReady(c: Client, n: nat, window: Window, total: nat, etag: Option<Text>)
    ensures var r := Safelisted(c, n, window, total, etag).outcome;
      && (r.Done? ==> Ready(r.value, window))
      && (TagsName(c) ==> Named(c.file, r, etag))
  {
    if PlanWindow(total, window).Some? {
      var plan := PlanWindow(total, window).value;
      var range := Range(0, Some(if plan.first == 0 then SegmentEnd(plan.last, total) - 1 else HEADER_LENGTH - 1));
      var ranged := Ranged(c, n, range, None, Some(total), etag, true);
      if ranged.Done? {
        var started := AtStart(ranged.value.left, total, etag, window);
        if started.Done? {
          AtStartReady(ranged.value.left, total, etag, window);
          SegmentsReady(c, n + 1, started.value.decryptor, plan, etag, window);
        }
        if TagsName(c) {
          RangedNamed(c, n, range, None, Some(total), etag, true);
        }
      }
    }
  }

  lemma WholeReady(c: Client, n: nat, window: Window, total: nat, etag: Option<Text>)
    ensures var r := Whole(c, n, window, total, etag).outcome;
      && (r.Done? ==> Ready(r.value, window))
      && (TagsName(c) ==> Named(c.file, r, etag))
  {
    var r := Request(false, None, None);
    var answered := Answered(c, n, r);
    if answered.Done? && AtStart(Flatten(answered.value.chunks), total, etag, window).Done? {
      AtStartReady(Flatten(answered.value.chunks), total, etag, window);
      if TagsName(c) {
        assert NamesHeader(c.host(n, r), r, c.file);
      }
    }
  }

  /** However the file was opened: the decryptor's length is one a file can have, the plan is the
      window's, and a tag to resume from decided whose header was used. */
  lemma OpenReady(c: Client, n: nat, window: Window, resume: Option<Text>)
    ensures var r := OpenEncrypted(c, n, window, resume).outcome;
      && (r.Done? ==> Ready(r.value, window))
      && (TagsName(c) ==> Named(c.file, r, resume))
  {
    if !c.corsSafe {
      ConditionalReady(c, n, window, resume);
    } else {
      var head := Answered(c, n, Request(true, None, None));
      if head.Done? && head.value.length.Some? {
        var total, etag := head.value.length.value, head.value.etag;
        SafelistedReady(c, n + 1, window, total, etag);
        WholeReady(c, Safelisted(c, n + 1, window, total, etag).requests, window, total, etag);
      }
    }
  }

  // ---- Opening: an unchanged host ---------------------------------------------------------------------------

  /** The opened read holds the stored segments of its plan. */
  predicate Holds(file: File, r: Outcome<Position>, header: Bytes, etag: Option<Text>)
    requires Stored(file, header)
  {
    && r.Done? && r.value.decryptor.header == header && r.value.etag == etag
    && r.value.plan.first <= r.value.plan.last
    && HoldsFrom(file.stored[header], r.value.decryptor, r.value.plan, r.value.plan.first, r.value.left)
  }

  lemma RangedTaken(
    c: Client, n: nat, range: Range, ifRange: Option<Text>, total: Option<nat>, expected: Option<Text>, stored: Bytes, etag: Option<Text>)
    requires ServesAt(c, n, stored, etag) && (ifRange.None? || ifRange == etag) && (expected.None? || expected == etag)
    requires range.from < |stored| && range.from <= RangeEnd(|stored|, range)
    requires total == Some(|stored|) || (total.None? && !c.corsSafe)
    ensures var r := Ranged(c, n, range, ifRange, total, expected, c.corsSafe);
      || r == Done(Part(Accepted(Some(|stored|), etag), stored[range.from..RangeEnd(|stored|, range) + 1]))
      || (c.corsSafe && r == Failed(Refused))
  {
    var r := Request(false, Some(range), ifRange);
    assert Serves(c.host(n, r), r, stored, etag, c.corsSafe);
  }

  lemma StoredLengths(file: File, header: Bytes, window: Window)
    requires Stored(file, header)
    ensures var total := |file.stored[header]|;
      && total >= MIN_CIPHERTEXT && PlanWindow(total, window).Some? && OpenDecryptor(header, total).Some?
      && WellFormed(OpenDecryptor(header, total).value)
      && var plan := PlanWindow(total, window).value;
         && plan.first <= plan.last < OpenDecryptor(header, total).value.segments
         && CipherStart(plan.first) < SegmentEnd(plan.last, total) <= total
         && (plan.first == 0 ==> CipherStart(plan.first) == HEADER_LENGTH)
  {
    var plain := file.plains[header];
    LengthAccepted(|plain|);
    PlanStarts(|file.stored[header]|, window);
    var plan := PlanWindow(|file.stored[header]|, window).value;
    SegmentsInOrder(|plain|, plan.first, plan.last);
  }

  lemma StartsStored(file: File, header: Bytes, d: Decryptor, plan: Plan, left: Bytes, etag: Option<Text>, window: Window)
    requires Stored(file, header) && HEADER_LENGTH <= |left| && left <= file.stored[header]
    requires OpenDecryptor(header, |file.stored[header]|) == Some(d)
    requires PlanWindow(|file.stored[header]|, window) == Some(plan)
    ensures AtStart(left, |file.stored[header]|, etag, window) == Done(Position(d, etag, plan, left[HEADER_LENGTH..]))
  {
    StoredLengths(file, header, window);
    assert left[..HEADER_LENGTH] == file.stored[header][..HEADER_LENGTH];
  }

  lemma SegmentsHold(c: Client, n: nat, header: Bytes, d: Decryptor, plan: Plan, window: Window, etag: Option<Text>)
    requires Stored(c.file, header) && ServesAt(c, n, c.file.stored[header], etag)
    requires OpenDecryptor(header, |c.file.stored[header]|) == Some(d)
    requires PlanWindow(|c.file.stored[header]|, window) == Some(plan)
    ensures var r := Segments(c, n, d, plan, etag).outcome;
      Holds(c.file, r, header, etag) || (c.corsSafe && r == Failed(Refused))
  {
    hide Ranged;
    StoredLengths(c.file, header, window);
    var stored, total := c.file.stored[header], |c.file.stored[header]|;
    var range := Range(CipherStart(plan.first), Some(SegmentEnd(plan.last, total) - 1));
    var ifRange := if !c.corsSafe && IsStrong(etag) then etag else None;
    RangedTaken(c, n, range, ifRange, Some(total), etag, stored, etag);
  }

  /** A body from the start of the file that reaches the end of the plan. */
  lemma StartHolds(stored: Bytes, plan: Plan, d: Decryptor, end: nat)
    requires d.total == |stored| && plan.first == 0 && plan.last < d.segments
    requires HEADER_LENGTH < SegmentEnd(plan.last, |stored|) <= end <= |stored|
    ensures HoldsFrom(stored, d, plan, 0, stored[..end][HEADER_LENGTH..])
  {
    var to := SegmentEnd(plan.last, |stored|);
    assert stored[..end][HEADER_LENGTH..][..to - HEADER_LENGTH] == stored[HEADER_LENGTH..to];
  }

  lemma FirstReaches(total: nat, window: Window)
    requires PlanWindow(total, window).Some? && PlanWindow(total, window).value.first == 0 && SegmentOf(window.start) == 0
    ensures SegmentEnd(PlanWindow(total, window).value.last, total) - 1 <= RangeEnd(total, Range(0, FirstTo(window)))
  {
    var plan := PlanWindow(total, window).value;
    PlanStarts(total, window);
    if window.end.Some? && plan.start < plan.end {
      SegmentOfGrows(plan.end - 1, window.end.value - 1);
      FullEndsGrow(plan.last, SegmentOf(Max(window.end.value - 1, 0)));
    }
  }

  lemma FullEndsGrow(i: nat, j: nat)
    requires i <= j
    ensures FullEnd(i) <= FullEnd(j)
  {
  }

  lemma ConditionalHolds(c: Client, n: nat, header: Bytes, window: Window, etag: Option<Text>, resume: Option<Text>)
    requires !c.corsSafe && Stored(c.file, header)
    requires ServesAt(c, n, c.file.stored[header], etag) && ServesAt(c, n + 1, c.file.stored[header], etag)
    requires resume.None? || resume == etag
    ensures Holds(c.file, Conditional(c, n, window, resume).outcome, header, etag)
  {
    hide Ranged, Segments, AtStart;
    StoredLengths(c.file, header, window);
    var stored, total := c.file.stored[header], |c.file.stored[header]|;
    var plan, d := PlanWindow(total, window).value, OpenDecryptor(header, total).value;
    var range := Range(0, FirstTo(window));
    var ifRange := if IsStrong(resume) then resume else None;
    var end := RangeEnd(total, range) + 1;
    assert HEADER_LENGTH <= end <= total;
    RangedTaken(c, n, range, ifRange, None, resume, stored, etag);
    assert stored[0..end] == stored[..end];
    StartsStored(c.file, header, d, plan, stored[..end], etag, window);
    if SegmentOf(window.start) == 0 && plan.first == 0 {
      FirstReaches(total, window);
      StartHolds(stored, plan, d, end);
    } else {
      SegmentsHold(c, n + 1, header, d, plan, window, etag);
    }
  }

  lemma SafelistedHolds(c: Client, n: nat, header: Bytes, window: Window, etag: Option<Text>)
    requires c.corsSafe && Stored(c.file, header)
    requires ServesAt(c, n, c.file.stored[header], etag) && ServesAt(c, n + 1, c.file.stored[header], etag)
    ensures var r := Safelisted(c, n, window, |c.file.stored[header]|, etag).outcome;
      Holds(c.file, r, header, etag) || r == Failed(Refused)
  {
    hide Ranged, Segments;
    StoredLengths(c.file, header, window);
    var stored, total := c.file.stored[header], |c.file.stored[header]|;
    var plan, d := PlanWindow(total, window).value, OpenDecryptor(header, total).value;
    var end := if plan.first == 0 then SegmentEnd(plan.last, total) else HEADER_LENGTH;
    var range := Range(0, Some(end - 1));
    RangedTaken(c, n, range, None, Some(total), etag, stored, etag);
    assert stored[0..end] == stored[..end];
    StartsStored(c.file, header, d, plan, stored[..end], etag, window);
    if plan.first == 0 {
      StartHolds(stored, plan, d, end);
    } else {
      SegmentsHold(c, n + 1, header, d, plan, window, etag);
    }
  }

  lemma WholeHolds(c: Client, n: nat, header: Bytes, window: Window, etag: Option<Text>)
    requires Stored(c.file, header) && ServesAt(c, n, c.file.stored[header], etag)
    ensures Holds(c.file, Whole(c, n, window, |c.file.stored[header]|, etag).outcome, header, etag)
  {
    StoredLengths(c.file, header, window);
    var stored, total := c.file.stored[header], |c.file.stored[header]|;
    var plan, d := PlanWindow(total, window).value, OpenDecryptor(header, total).value;
    var r := Request(false, None, None);
    assert Serves(c.host(n, r), r, stored, etag, c.corsSafe);
    StartsStored(c.file, header, d, plan, stored, etag, window);
    SkipsTo(stored, CipherStart(plan.first), SegmentEnd(plan.last, total));
  }

  lemma SkipsTo(stored: Bytes, at: nat, to: nat)
    requires HEADER_LENGTH <= at <= to <= |stored|
    ensures StoredFrom(stored, at, to, stored[HEADER_LENGTH..][at - HEADER_LENGTH..])
  {
    assert stored[HEADER_LENGTH..][at - HEADER_LENGTH..] == stored[at..];
    assert stored[at..][..to - at] == stored[at..to];
  }

  /** Against an unchanged host every strategy opens the file where the plan says. */
  lemma OpenHolds(c: Client, n: nat, header: Bytes, window: Window, etag: Option<Text>, resume: Option<Text>)
    requires Stored(c.file, header) && Unchanged(c, c.file.stored[header], etag)
    requires resume.None? || resume == etag
    ensures Holds(c.file, OpenEncrypted(c, n, window, resume).outcome, header, etag)
  {
    if !c.corsSafe {
      ConditionalHolds(c, n, header, window, etag, resume);
    } else {
      var r := Request(true, None, None);
      assert ServesAt(c, n, c.file.stored[header], etag);
      assert Serves(c.host(n, r), r, c.file.stored[header], etag, c.corsSafe);
      SafelistedHolds(c, n + 1, header, window, etag);
      WholeHolds(c, Safelisted(c, n + 1, window, |c.file.stored[header]|, etag).requests, header, window, etag);
    }
  }

  // ---- Reading -------------------------------------------------------------------------------------------------

  /** Whatever the host does, changes, lies or mixes versions: a ranged read that succeeds
      returned exactly the slice of one version. */
  lemma {:induction false} ReadIsSliceOfOneVersion(c: Client, n: nat, window: Window, restart: nat)
    requires Authentic(c.file)
    ensures var r := ReadRange(c, n, window, restart).outcome;
      r.Done? ==> exists header :: header in c.file.plains && r.value == Slice(c.file.plains[header], window)
    decreases MAX_RESTARTS - restart
  {
    var started := OpenEncrypted(c, n, window, None);
    OpenReady(c, n, window, None);
    if started.outcome.Done? {
      EmitIsGenuine(c, started.outcome.value, window);
    } else if started.outcome.Changed? && restart < MAX_RESTARTS {
      ReadIsSliceOfOneVersion(c, started.requests, window, restart + 1);
    }
  }

  /** A ranged read of an unchanged object returns exactly the plaintext slice, clamped to the
      file, for every window, every way the bodies are cut, and every way of opening. */
  lemma {:induction false} ReadReturnsSlice(c: Client, n: nat, window: Window, header: Bytes, etag: Option<Text>)
    requires Authentic(c.file) && Stored(c.file, header) && Unchanged(c, c.file.stored[header], etag)
    ensures ReadRange(c, n, window, 0).outcome == Done(Slice(c.file.plains[header], window))
  {
    OpenHolds(c, n, header, window, etag, None);
    OpenReady(c, n, window, None);
    var p := OpenEncrypted(c, n, window, None).outcome.value;
    EmitsAll(c, p, p.plan.first, p.left);
    EmitIsGenuine(c, p, window);
  }

  /** A window with nothing in it is no exception: the last segment is fetched and must verify
      before the empty answer is given, and nothing of it is released. */
  lemma EmptyWindowVerifiesLast(c: Client, n: nat, window: Window)
    requires Authentic(c.file)
    ensures var started := OpenEncrypted(c, n, window, None).outcome;
      started.Done? && started.value.plan.start >= started.value.plan.end ==>
        var p := started.value;
        && p.plan.first == p.plan.last == p.decryptor.segments - 1
        && (Emit(c, p).error.None? ==>
              && Verifies(c, p, p.plan.last, p.left) && Emit(c, p).bytes == []
              && p.decryptor.plaintextLength == |c.file.plains[p.decryptor.header]|)
  {
    OpenReady(c, n, window, None);
    var started := OpenEncrypted(c, n, window, None).outcome;
    if started.Done? && started.value.plan.start >= started.value.plan.end {
      var p := started.value;
      PlanStarts(p.decryptor.total, window);
      EmitsStep(c, p, p.plan.last, p.left);
      if Verifies(c, p, p.plan.last, p.left) {
        ExtentIsLength(p.decryptor, p.plan.last);
        var segment := p.left[..ExtentLength(p.decryptor, p.plan.last)];
        SegmentVerifies(c.file, p.decryptor, p.plan.last, segment);
        NothingInWindow(p.plan, OpenSegment(c.file, p.decryptor, p.plan.last, segment).value, p.plan.last);
      }
    }
  }

  lemma NothingInWindow(plan: Plan, piece: Bytes, i: nat)
    requires plan.start >= plan.end
    ensures PartOf(piece, plan, i) == []
  {
  }

  // ---- Downloading ------------------------------------------------------------------------------------------------

  /** What the caller vouches for: the bytes already in the sink are the beginning of the version
      its tag names, as far as that version reaches. */
  predicate Belongs(file: File, sink: Bytes, resume: Option<Text>) {
    match resume
    case None => sink == []
    case Some(tag) =>
      tag in file.tags && file.tags[tag] in file.plains
      && (|sink| <= |file.plains[file.tags[tag]]| ==> sink <= file.plains[file.tags[tag]])
  }

  /** The sink holds the whole plaintext of one version, of the reported length. */
  predicate HoldsOneVersion(file: File, sink: Bytes, length: nat) {
    exists header :: header in file.plains && sink == file.plains[header] && |sink| == length
  }

  lemma AttemptFillsSink(c: Client, p: Position, sink: Bytes, resume: Option<Text>)
    requires Authentic(c.file) && Ready(p, Window(|sink|, None)) && Belongs(c.file, sink, resume)
    requires Named(c.file, Done(p), resume) && Emit(c, p).error.None? && |sink| <= p.decryptor.plaintextLength
    ensures HoldsOneVersion(c.file, sink + Emit(c, p).bytes, p.decryptor.plaintextLength)
  {
    EmitIsGenuine(c, p, Window(|sink|, None));
    var plain := c.file.plains[p.decryptor.header];
    assert sink <= plain;
    assert sink + Slice(plain, Window(|sink|, None)) == plain;
  }

  /** One attempt: it fails, it starts over with an empty sink, or it emits. */
  lemma {:induction false} OneAttempt(c: Client, n: nat, sink: Bytes, resume: Option<Text>, restart: nat)
    ensures var r := DownloadFrom(c, n, sink, |sink|, resume, restart);
      var started := OpenEncrypted(c, n, Window(|sink|, None), resume);
      match started.outcome
      case Failed(_) => !r.result.Done? && r.sink == sink && r.attempts == restart + 1
      case Changed =>
        if restart >= MAX_RESTARTS then !r.result.Done? && r.sink == sink && r.attempts == restart + 1
        else r == DownloadFrom(c, started.requests, [], 0, None, restart + 1)
      case Done(p) =>
        && r.sink == sink + Emit(c, p).bytes && r.attempts == restart + 1
        && (r.result.Done? <==> Emit(c, p).error.None? && |sink| <= p.decryptor.plaintextLength)
        && (r.result.Done? ==> r.result.value == p.decryptor.plaintextLength)
  {
  }

  /** A download that returned left one whole version; there were at most four attempts. */
  predicate DownloadRight(file: File, r: Download) {
    (r.result.Done? ==> HoldsOneVersion(file, r.sink, r.result.value)) && r.attempts <= 4
  }

  lemma {:induction false} AttemptRight(c: Client, n: nat, sink: Bytes, resume: Option<Text>, restart: nat)
    requires Authentic(c.file) && TagsName(c) && Belongs(c.file, sink, resume) && restart <= MAX_RESTARTS
    requires OpenEncrypted(c, n, Window(|sink|, None), resume).outcome.Done?
    ensures DownloadRight(c.file, DownloadFrom(c, n, sink, |sink|, resume, restart))
  {
    var window := Window(|sink|, None);
    OpenReady(c, n, window, resume);
    OneAttempt(c, n, sink, resume, restart);
    var p := OpenEncrypted(c, n, window, resume).outcome.value;
    if Emit(c, p).error.None? && |sink| <= p.decryptor.plaintextLength {
      AttemptFillsSink(c, p, sink, resume);
    }
  }

  lemma {:induction false} LastAttemptRight(c: Client, n: nat, sink: Bytes, resume: Option<Text>, restart: nat)
    requires restart <= MAX_RESTARTS
    requires var started := OpenEncrypted(c, n, Window(|sink|, None), resume).outcome;
      started.Failed? || (started.Changed? && restart >= MAX_RESTARTS)
    ensures DownloadRight(c.file, DownloadFrom(c, n, sink, |sink|, resume, restart))
  {
    OneAttempt(c, n, sink, resume, restart);
  }

  /** A download that returns leaves the whole plaintext of one single version in the sink, of
      exactly the reported length, though versions may change between any two requests. There
      are at most four attempts. */
  lemma {:induction false} DownloadIsOneVersion(c: Client, n: nat, sink: Bytes, resume: Option<Text>, restart: nat)
    requires Authentic(c.file) && TagsName(c) && Belongs(c.file, sink, resume) && restart <= MAX_RESTARTS
    ensures DownloadRight(c.file, DownloadFrom(c, n, sink, |sink|, resume, restart))
    decreases MAX_RESTARTS - restart
  {
    hide OpenEncrypted;
    var started := OpenEncrypted(c, n, Window(|sink|, None), resume);
    if started.outcome.Done? {
      AttemptRight(c, n, sink, resume, restart);
    } else if started.outcome.Changed? && restart < MAX_RESTARTS {
      OneAttempt(c, n, sink, resume, restart);
      DownloadIsOneVersion(c, started.requests, [], None, restart + 1);
    } else {
      LastAttemptRight(c, n, sink, resume, restart);
    }
  }

  predicate IsBeginning(file: File, sink: Bytes) {
    sink == [] || exists header :: header in file.plains && sink <= file.plains[header]
  }

  /** The resumed prefix does not reach past its version. */
  predicate Within(file: File, sink: Bytes, resume: Option<Text>) {
    Belongs(file, sink, resume) && (resume.Some? ==> |sink| <= |file.plains[file.tags[resume.value]]|)
  }

  lemma {:induction false} AttemptSink(c: Client, n: nat, sink: Bytes, resume: Option<Text>, restart: nat)
    requires Authentic(c.file) && TagsName(c) && Within(c.file, sink, resume)
    requires var started := OpenEncrypted(c, n, Window(|sink|, None), resume).outcome;
      !started.Changed? || restart >= MAX_RESTARTS
    ensures IsBeginning(c.file, DownloadFrom(c, n, sink, |sink|, resume, restart).sink)
  {
    var started := OpenEncrypted(c, n, Window(|sink|, None), resume).outcome;
    OneAttempt(c, n, sink, resume, restart);
    if started.Done? {
      OpenReady(c, n, Window(|sink|, None), resume);
      EmitIsGenuine(c, started.value, Window(|sink|, None));
      AttemptStaysGenuine(c, started.value, sink, resume);
    } else if resume.Some? {
      assert c.file.tags[resume.value] in c.file.plains && sink <= c.file.plains[c.file.tags[resume.value]];
    }
  }

  /** However a download ends, and wherever it failed, the sink holds a beginning of one version:
      nothing of an earlier attempt is ever left under a later one. */
  lemma {:induction false} SinkIsAlwaysGenuine(c: Client, n: nat, sink: Bytes, resume: Option<Text>, restart: nat)
    requires Authentic(c.file) && TagsName(c) && Within(c.file, sink, resume)
    ensures IsBeginning(c.file, DownloadFrom(c, n, sink, |sink|, resume, restart).sink)
    decreases MAX_RESTARTS - restart
  {
    var started := OpenEncrypted(c, n, Window(|sink|, None), resume);
    if started.outcome.Changed? && restart < MAX_RESTARTS {
      OneAttempt(c, n, sink, resume, restart);
      SinkIsAlwaysGenuine(c, started.requests, [], None, restart + 1);
    } else {
      AttemptSink(c, n, sink, resume, restart);
    }
  }

  lemma AttemptStaysGenuine(c: Client, p: Position, sink: Bytes, resume: Option<Text>)
    requires Within(c.file, sink, resume) && Named(c.file, Done(p), resume)
    requires GenuinePart(c.file, p, Window(|sink|, None), Emit(c, p).bytes)
    ensures IsBeginning(c.file, sink + Emit(c, p).bytes)
  {
    var bytes := Emit(c, p).bytes;
    if bytes == [] {
      assert sink + bytes == sink;
      if resume.Some? {
        assert c.file.tags[resume.value] in c.file.plains && sink <= c.file.plains[c.file.tags[resume.value]];
      }
    } else {
      var plain := c.file.plains[p.decryptor.header];
      assert sink <= plain;
      assert (sink + bytes)[..|sink|] == plain[..|sink|];
      assert plain[|sink|..][..|bytes|] == bytes;
      assert sink + bytes == plain[..|sink| + |bytes|];
    }
  }

  /** Against an unchanged host a download from the start, or from any prefix with the host's own
      tag, succeeds at once. */
  lemma {:induction false} DownloadCompletes(c: Client, n: nat, header: Bytes, etag: Option<Text>, sink: Bytes, resume: Option<Text>)
    requires Authentic(c.file) && Stored(c.file, header) && Unchanged(c, c.file.stored[header], etag)
    requires sink <= c.file.plains[header] && (resume.None? || resume == etag)
    ensures var r := DownloadFrom(c, n, sink, |sink|, resume, 0);
      r.result == Done(|c.file.plains[header]|) && r.sink == c.file.plains[header] && r.attempts == 1
  {
    var window, plain := Window(|sink|, None), c.file.plains[header];
    OpenHolds(c, n, header, window, etag, resume);
    OpenReady(c, n, window, resume);
    var p := OpenEncrypted(c, n, window, resume).outcome.value;
    EmitsAll(c, p, p.plan.first, p.left);
    EmitIsGenuine(c, p, window);
    assert sink + Slice(plain, window) == plain;
  }
}
