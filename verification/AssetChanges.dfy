/** A read or a download succeeds though the object is replaced meanwhile, as long as it is not
    replaced too often: each attempt that meets a change is followed by another. */
module AssetChanges {
  import opened Text
  import opened AssetFormat
  import opened BodyReader
  import opened Pieces
  import opened AssetFile
  import opened AssetReads
  import opened AssetProofs

  // ---- A host whose object is replaced now and then ------------------------------------------------

  /** One version of the object, and its entity tag. */
  datatype Version = Version(header: Bytes, tag: Text)

  predicate InRange(total: nat, range: Range) {
    range.from < total && range.from <= RangeEnd(total, range)
  }

  /** What a host answers that has this version: the whole object to a condition on another one, 416
      to a range beyond the end, else what was asked for. */
  predicate Answers(reply: Reply, r: Request, stored: Bytes, tag: Text, corsSafe: bool) {
    if r.ifRange.Some? && r.ifRange != Some(tag) then
      reply.Reply? && reply.status == 200 && reply.etag == Some(tag) && Flatten(reply.chunks) == stored
    else
      && Serves(reply, r, stored, Some(tag), corsSafe)
      && (!r.head && r.range.Some? && !InRange(|stored|, r.range.value) && reply.Reply? ==> reply.status == 416)
  }

  ghost predicate AnswersAt(c: Client, n: nat, v: Version)
    requires v.header in c.file.stored
  {
    forall r: Request {:trigger c.host(n, r)} :: Answers(c.host(n, r), r, c.file.stored[v.header], v.tag, c.corsSafe)
  }

  /** Which version the host has at the n-th request. */
  type Schedule = nat -> nat

  /** The host goes from one stored version to the next; each has a strong tag of its own. */
  ghost predicate Moves(c: Client, versions: seq<Version>, at: Schedule) {
    && (forall i :: 0 <= i < |versions| ==> Stored(c.file, versions[i].header) && IsStrong(Some(versions[i].tag)))
    && (forall i, j :: 0 <= i < j < |versions| ==> versions[i].tag != versions[j].tag)
    && (forall n: nat :: at(n) < |versions| && AnswersAt(c, n, versions[at(n)]))
    && (forall n: nat :: at(n) <= at(n + 1))
  }

  lemma ServesNow(c: Client, versions: seq<Version>, at: Schedule, n: nat)
    requires Moves(c, versions, at)
    ensures at(n) < |versions| && Stored(c.file, versions[at(n)].header)
    ensures ServesAt(c, n, c.file.stored[versions[at(n)].header], Some(versions[at(n)].tag))
  {
    assert AnswersAt(c, n, versions[at(n)]);
  }

  lemma {:induction false} OnlyOnward(c: Client, versions: seq<Version>, at: Schedule, m: nat, n: nat)
    requires Moves(c, versions, at) && m <= n
    ensures at(m) <= at(n)
    decreases n - m
  {
    if m < n {
      OnlyOnward(c, versions, at, m, n - 1);
      assert at(n - 1) <= at(n - 1 + 1);
    }
  }

  // ---- One ranged request after a change -----------------------------------------------------------------

  /** Another version answers than the one expected: that is noticed. */
  lemma RangedNotices(
    c: Client, n: nat, v: Version, range: Range, ifRange: Option<Text>, total: Option<nat>, expected: Option<Text>)
    requires v.header in c.file.stored && AnswersAt(c, n, v)
    requires expected.Some? && expected != Some(v.tag) && (ifRange.None? || ifRange == expected)
    requires total.Some? || InRange(|c.file.stored[v.header]|, range)
    ensures var r := Ranged(c, n, range, ifRange, total, expected, c.corsSafe);
      r == Changed || (c.corsSafe && r == Failed(Refused))
  {
    var request := Request(false, Some(range), ifRange);
    assert Answers(c.host(n, request), request, c.file.stored[v.header], v.tag, c.corsSafe);
  }

  lemma SegmentsNotice(c: Client, n: nat, v: Version, d: Decryptor, plan: Plan, etag: Option<Text>)
    requires v.header in c.file.stored && AnswersAt(c, n, v) && etag.Some? && etag != Some(v.tag)
    ensures var r := Segments(c, n, d, plan, etag);
      r.requests == n + 1 && (r.outcome == Changed || (c.corsSafe && r.outcome == Failed(Refused)))
  {
    hide Ranged;
    var range := Range(CipherStart(plan.first), Some(SegmentEnd(plan.last, d.total) - 1));
    RangedNotices(c, n, v, range, if !c.corsSafe && IsStrong(etag) then etag else None, Some(d.total), etag);
  }

  // ---- One attempt ------------------------------------------------------------------------------------------

  /** An attempt that began at request `n` opened the version that the host had then, or noticed that
      the host has another one by its last request. */
  ghost predicate Followed(c: Client, versions: seq<Version>, at: Schedule, n: nat, r: Ran<Position>)
    requires Moves(c, versions, at)
  {
    ServesNow(c, versions, at, n);
    && n < r.requests <= n + 4
    && (Holds(c.file, r.outcome, versions[at(n)].header, Some(versions[at(n)].tag))
        || (r.outcome == Changed && at(n) < at(r.requests - 1)))
  }

  lemma ConditionalFollows(c: Client, versions: seq<Version>, at: Schedule, n: nat, window: Window, resume: Option<Text>)
    requires Moves(c, versions, at) && !c.corsSafe
    requires resume.None? || resume == Some(versions[at(n)].tag)
    ensures Followed(c, versions, at, n, Conditional(c, n, window, resume))
  {
    hide Conditional, Holds, ServesAt, AnswersAt;
    ServesNow(c, versions, at, n);
    ServesNow(c, versions, at, n + 1);
    OnlyOnward(c, versions, at, n, n + 1);
    var v, next := versions[at(n)], versions[at(n + 1)];
    if at(n + 1) == at(n) {
      ConditionalHolds(c, n, v.header, window, Some(v.tag), resume);
      ConditionalRequests(c, n, window, resume);
    } else {
      ConditionalNotices(c, n, v, next, window, resume);
    }
  }

  lemma ConditionalRequests(c: Client, n: nat, window: Window, resume: Option<Text>)
    ensures var r := Conditional(c, n, window, resume).requests; r == n + 1 || r == n + 2
  {
    hide Ranged, AtStart;
  }

  /** The first request meets one version, the second another. */
  lemma ConditionalNotices(c: Client, n: nat, v: Version, next: Version, window: Window, resume: Option<Text>)
    requires !c.corsSafe && Stored(c.file, v.header) && next.header in c.file.stored && v.tag != next.tag
    requires ServesAt(c, n, c.file.stored[v.header], Some(v.tag)) && AnswersAt(c, n + 1, next)
    requires resume.None? || resume == Some(v.tag)
    ensures var r := Conditional(c, n, window, resume);
      (r.requests == n + 1 && Holds(c.file, r.outcome, v.header, Some(v.tag))) || (r.requests == n + 2 && r.outcome == Changed)
  {
    hide Ranged, Segments, AtStart;
    StoredLengths(c.file, v.header, window);
    var stored, total := c.file.stored[v.header], |c.file.stored[v.header]|;
    var plan, d := PlanWindow(total, window).value, OpenDecryptor(v.header, total).value;
    var range := Range(0, FirstTo(window));
    var end := RangeEnd(total, range) + 1;
    assert HEADER_LENGTH <= end <= total;
    RangedTaken(c, n, range, if IsStrong(resume) then resume else None, None, resume, stored, Some(v.tag));
    assert stored[0..end] == stored[..end];
    StartsStored(c.file, v.header, d, plan, stored[..end], Some(v.tag), window);
    if SegmentOf(window.start) == 0 && plan.first == 0 {
      FirstReaches(total, window);
      StartHolds(stored, plan, d, end);
    } else {
      SegmentsNotice(c, n + 1, next, d, plan, Some(v.tag));
    }
  }

  /** A resumed version that is gone is noticed at the first request. */
  lemma ConditionalStale(c: Client, n: nat, v: Version, window: Window, resume: Option<Text>)
    requires !c.corsSafe && Stored(c.file, v.header) && AnswersAt(c, n, v) && resume.Some? && resume != Some(v.tag)
    ensures Conditional(c, n, window, resume) == Ran(Changed, n + 1)
  {
    hide Ranged;
    StoredLengths(c.file, v.header, window);
    RangedNotices(c, n, v, Range(0, FirstTo(window)), if IsStrong(resume) then resume else None, None, resume);
  }

  /** The host has version `u` where `v` is looked for: the same, or one with another tag. */
  ghost predicate SameOrOther(c: Client, n: nat, v: Version, u: Version) {
    Stored(c.file, u.header) && AnswersAt(c, n, u) && ServesAt(c, n, c.file.stored[u.header], Some(u.tag)) && (u == v || u.tag != v.tag)
  }

  lemma SafelistedFollows(c: Client, n: nat, window: Window, v: Version, first: Version, second: Version)
    requires c.corsSafe && Stored(c.file, v.header) && SameOrOther(c, n, v, first) && SameOrOther(c, n + 1, v, second)
    ensures var r := Safelisted(c, n, window, |c.file.stored[v.header]|, Some(v.tag));
      && (r.requests == n + 1 || r.requests == n + 2)
      && (Holds(c.file, r.outcome, v.header, Some(v.tag)) || r.outcome == Failed(Refused)
          || (r.outcome == Changed && (if r.requests == n + 1 then first else second) != v))
  {
    hide Safelisted, Holds, AnswersAt, ServesAt;
    if first != v {
      SafelistedStale(c, n, v, first, window);
    } else if second == v {
      SafelistedHolds(c, n, v.header, window, Some(v.tag));
      SafelistedRequests(c, n, window, |c.file.stored[v.header]|, Some(v.tag));
    } else {
      SafelistedNotices(c, n, v, second, window);
    }
  }

  lemma SafelistedRequests(c: Client, n: nat, window: Window, total: nat, etag: Option<Text>)
    requires PlanWindow(total, window).Some?
    ensures var r := Safelisted(c, n, window, total, etag).requests; r == n + 1 || r == n + 2
  {
    hide Ranged, AtStart;
  }

  lemma SafelistedStale(c: Client, n: nat, v: Version, u: Version, window: Window)
    requires c.corsSafe && Stored(c.file, v.header) && Stored(c.file, u.header) && AnswersAt(c, n, u) && u.tag != v.tag
    ensures var r := Safelisted(c, n, window, |c.file.stored[v.header]|, Some(v.tag));
      r.requests == n + 1 && (r.outcome == Changed || r.outcome == Failed(Refused))
  {
    hide Ranged;
    StoredLengths(c.file, v.header, window);
    StoredLengths(c.file, u.header, window);
    var total := |c.file.stored[v.header]|;
    var plan := PlanWindow(total, window).value;
    var range := Range(0, Some(if plan.first == 0 then SegmentEnd(plan.last, total) - 1 else HEADER_LENGTH - 1));
    RangedNotices(c, n, u, range, None, Some(total), Some(v.tag));
  }

  lemma SafelistedNotices(c: Client, n: nat, v: Version, next: Version, window: Window)
    requires c.corsSafe && Stored(c.file, v.header) && next.header in c.file.stored && v.tag != next.tag
    requires ServesAt(c, n, c.file.stored[v.header], Some(v.tag)) && AnswersAt(c, n + 1, next)
    ensures var r := Safelisted(c, n, window, |c.file.stored[v.header]|, Some(v.tag));
      || (r.requests == n + 1 && (Holds(c.file, r.outcome, v.header, Some(v.tag)) || r.outcome == Failed(Refused)))
      || (r.requests == n + 2 && (r.outcome == Changed || r.outcome == Failed(Refused)))
  {
    hide Ranged, Segments, AtStart;
    StoredLengths(c.file, v.header, window);
    var stored, total := c.file.stored[v.header], |c.file.stored[v.header]|;
    var plan, d := PlanWindow(total, window).value, OpenDecryptor(v.header, total).value;
    var end := if plan.first == 0 then SegmentEnd(plan.last, total) else HEADER_LENGTH;
    RangedTaken(c, n, Range(0, Some(end - 1)), None, Some(total), Some(v.tag), stored, Some(v.tag));
    assert stored[0..end] == stored[..end];
    StartsStored(c.file, v.header, d, plan, stored[..end], Some(v.tag), window);
    if plan.first == 0 {
      StartHolds(stored, plan, d, end);
    } else {
      SegmentsNotice(c, n + 1, next, d, plan, Some(v.tag));
    }
  }

  lemma WholeFollows(c: Client, n: nat, window: Window, v: Version, u: Version)
    requires Stored(c.file, v.header) && SameOrOther(c, n, v, u)
    ensures var r := Whole(c, n, window, |c.file.stored[v.header]|, Some(v.tag));
      r.requests == n + 1 && (Holds(c.file, r.outcome, v.header, Some(v.tag)) || (r.outcome == Changed && u != v))
  {
    hide AtStart;
    if u == v {
      WholeHolds(c, n, v.header, window, Some(v.tag));
    } else {
      var r := Request(false, None, None);
      assert Answers(c.host(n, r), r, c.file.stored[u.header], u.tag, c.corsSafe);
    }
  }

  lemma IsThere(c: Client, versions: seq<Version>, at: Schedule, m: nat, n: nat)
    requires Moves(c, versions, at) && m <= n
    ensures SameOrOther(c, n, versions[at(m)], versions[at(n)])
    ensures versions[at(n)] != versions[at(m)] ==> at(m) < at(n)
  {
    ServesNow(c, versions, at, n);
    OnlyOnward(c, versions, at, m, n);
    assert AnswersAt(c, n, versions[at(n)]);
  }

  /** The HEAD names the version that the host has; then a range of it, or the whole. */
  lemma CorsFollows(c: Client, versions: seq<Version>, at: Schedule, n: nat, window: Window, resume: Option<Text>)
    requires Moves(c, versions, at) && c.corsSafe
    requires resume.None? || resume == Some(versions[at(n)].tag)
    ensures Followed(c, versions, at, n, OpenEncrypted(c, n, window, resume))
  {
    hide Safelisted, Whole, Holds;
    ServesNow(c, versions, at, n);
    var v := versions[at(n)];
    var request, total := Request(true, None, None), |c.file.stored[v.header]|;
    assert Serves(c.host(n, request), request, c.file.stored[v.header], Some(v.tag), c.corsSafe);
    IsThere(c, versions, at, n, n + 1);
    IsThere(c, versions, at, n, n + 2);
    SafelistedFollows(c, n + 1, window, v, versions[at(n + 1)], versions[at(n + 2)]);
    var ranged := Safelisted(c, n + 1, window, total, Some(v.tag));
    IsThere(c, versions, at, n, ranged.requests);
    WholeFollows(c, ranged.requests, window, v, versions[at(ranged.requests)]);
  }

  lemma CorsStale(c: Client, n: nat, v: Version, window: Window, resume: Option<Text>)
    requires c.corsSafe && v.header in c.file.stored && AnswersAt(c, n, v) && resume.Some? && resume != Some(v.tag)
    ensures OpenEncrypted(c, n, window, resume) == Ran(Changed, n + 1)
  {
    hide Safelisted;
    var r := Request(true, None, None);
    assert Answers(c.host(n, r), r, c.file.stored[v.header], v.tag, c.corsSafe);
  }

  lemma OpenFollows(c: Client, versions: seq<Version>, at: Schedule, n: nat, window: Window, resume: Option<Text>)
    requires Moves(c, versions, at)
    requires resume.None? || resume == Some(versions[at(n)].tag)
    ensures Followed(c, versions, at, n, OpenEncrypted(c, n, window, resume))
  {
    hide Followed;
    if c.corsSafe {
      CorsFollows(c, versions, at, n, window, resume);
    } else {
      ConditionalFollows(c, versions, at, n, window, resume);
    }
  }

  lemma OpenStale(c: Client, versions: seq<Version>, at: Schedule, n: nat, window: Window, resume: Option<Text>)
    requires Moves(c, versions, at) && resume.Some? && resume != Some(versions[at(n)].tag)
    ensures OpenEncrypted(c, n, window, resume) == Ran(Changed, n + 1)
  {
    hide Conditional;
    ServesNow(c, versions, at, n);
    assert AnswersAt(c, n, versions[at(n)]);
    if c.corsSafe {
      CorsStale(c, n, versions[at(n)], window, resume);
    } else {
      ConditionalStale(c, n, versions[at(n)], window, resume);
    }
  }

  // ---- Reading --------------------------------------------------------------------------------------------

  /** From request `n` on the object is replaced at most so often. */
  ghost predicate AtMost(at: Schedule, n: nat, changes: int) {
    forall m: nat :: n <= m ==> at(m) <= at(n) + changes
  }

  /** What a read or a download gave is of a version that the host had at some request after `n`. */
  ghost predicate HadLater(versions: seq<Version>, at: Schedule, n: nat, j: nat) {
    j < |versions| && exists m: nat :: n <= m && at(m) == j
  }

  lemma {:induction false} HeldIsRead(c: Client, p: Position, window: Window, header: Bytes, etag: Option<Text>, resume: Option<Text>, n: nat)
    requires Authentic(c.file) && Stored(c.file, header) && OpenEncrypted(c, n, window, resume).outcome == Done(p)
    requires Holds(c.file, Done(p), header, etag)
    ensures Emit(c, p) == Emitted(Slice(c.file.plains[header], window), None)
    ensures window.end.None? ==> p.decryptor.plaintextLength == |c.file.plains[header]|
  {
    OpenReady(c, n, window, resume);
    EmitsAll(c, p, p.plan.first, p.left);
    EmitIsGenuine(c, p, window);
  }

  /** From any restart on: a read returns the slice of a version that the host had meanwhile. */
  lemma {:induction false} ReadFollows(c: Client, versions: seq<Version>, at: Schedule, n: nat, window: Window, restart: nat)
    returns (j: nat)
    requires Authentic(c.file) && Moves(c, versions, at) && restart <= 3 && AtMost(at, n, 3 - restart)
    ensures HadLater(versions, at, n, j) && Stored(c.file, versions[j].header)
    ensures ReadRange(c, n, window, restart).outcome == Done(Slice(c.file.plains[versions[j].header], window))
    ensures ReadRange(c, n, window, restart).requests <= n + 4 * (1 + j - at(n))
    decreases 3 - restart
  {
    hide OpenEncrypted, Holds, Stored;
    ServesNow(c, versions, at, n);
    OpenFollows(c, versions, at, n, window, None);
    var started := OpenEncrypted(c, n, window, None);
    if started.outcome.Changed? {
      NotHolds(c.file, versions[at(n)].header, Some(versions[at(n)].tag));
      MovedOn(c, versions, at, n, started.requests, 3 - restart);
      j := ReadFollows(c, versions, at, started.requests, window, restart + 1);
      var m: nat :| started.requests <= m && at(m) == j;
    } else {
      j := at(n);
      OpenIsDone(c.file, started.outcome, versions[j].header, Some(versions[j].tag));
      HeldIsRead(c, started.outcome.value, window, versions[j].header, Some(versions[j].tag), None, n);
    }
  }

  lemma NotHolds(file: File, header: Bytes, etag: Option<Text>)
    requires Stored(file, header)
    ensures !Holds(file, Changed, header, etag)
  {
  }

  lemma OpenIsDone(file: File, r: Outcome<Position>, header: Bytes, etag: Option<Text>)
    requires Stored(file, header) && Holds(file, r, header, etag)
    ensures r.Done?
  {
  }

  /** After an attempt that met a change fewer of them are left. */
  lemma MovedOn(c: Client, versions: seq<Version>, at: Schedule, n: nat, later: nat, changes: int)
    requires Moves(c, versions, at) && n < later && at(n) < at(later - 1) && AtMost(at, n, changes)
    ensures at(n) < at(later) && changes > 0 && AtMost(at, later, changes - 1)
  {
    OnlyOnward(c, versions, at, later - 1, later);
    assert at(later) <= at(n) + changes;
    forall m: nat | later <= m
      ensures at(m) <= at(later) + (changes - 1)
    {
      assert at(m) <= at(n) + changes;
    }
  }

  /** If the object is replaced at most three times, a ranged read returns the slice of a version that
      the host had meanwhile, with an attempt more than there were changes. */
  lemma {:induction false} ReadSucceeds(c: Client, versions: seq<Version>, at: Schedule, n: nat, window: Window) returns (j: nat)
    requires Authentic(c.file) && Moves(c, versions, at) && AtMost(at, n, 3)
    ensures HadLater(versions, at, n, j) && Stored(c.file, versions[j].header)
    ensures ReadRange(c, n, window, 0).outcome == Done(Slice(c.file.plains[versions[j].header], window))
    ensures ReadRange(c, n, window, 0).requests <= n + 4 * (1 + j - at(n))
  {
    j := ReadFollows(c, versions, at, n, window, 0);
  }

  // ---- Downloading ------------------------------------------------------------------------------------------

  /** What is resumed is not of the version that the host has. */
  predicate Stale(versions: seq<Version>, at: Schedule, n: nat, resume: Option<Text>)
    requires at(n) < |versions|
  {
    resume.Some? && resume != Some(versions[at(n)].tag)
  }

  /** What the caller vouches for: bytes with the host's tag are a beginning of that version. */
  predicate Vouched(c: Client, v: Version, sink: Bytes, resume: Option<Text>)
    requires Stored(c.file, v.header)
  {
    if resume.None? then sink == [] else resume == Some(v.tag) ==> sink <= c.file.plains[v.header]
  }

  /** The sink holds this version whole, after so many attempts. */
  predicate Downloaded(c: Client, r: Download, v: Version, attempts: int) {
    v.header in c.file.plains && r.result == Done(|c.file.plains[v.header]|) && r.sink == c.file.plains[v.header] && r.attempts <= attempts
  }

  lemma {:induction false} CurrentFollows(
    c: Client, versions: seq<Version>, at: Schedule, n: nat, sink: Bytes, resume: Option<Text>, restart: nat)
    returns (j: nat)
    requires Authentic(c.file) && Moves(c, versions, at) && restart <= 3 && AtMost(at, n, 3 - restart)
    requires Stored(c.file, versions[at(n)].header) && Vouched(c, versions[at(n)], sink, resume) && !Stale(versions, at, n, resume)
    ensures HadLater(versions, at, n, j)
    ensures Downloaded(c, DownloadFrom(c, n, sink, |sink|, resume, restart), versions[j], restart + 1 + j - at(n))
    decreases 3 - restart
  {
    hide OpenEncrypted, Holds, Stored, DownloadFrom;
    var window := Window(|sink|, None);
    ServesNow(c, versions, at, n);
    OpenFollows(c, versions, at, n, window, resume);
    OneAttempt(c, n, sink, resume, restart);
    var started := OpenEncrypted(c, n, window, resume);
    if started.outcome.Changed? {
      NotHolds(c.file, versions[at(n)].header, Some(versions[at(n)].tag));
      MovedOn(c, versions, at, n, started.requests, 3 - restart);
      ServesNow(c, versions, at, started.requests);
      j := CurrentFollows(c, versions, at, started.requests, [], None, restart + 1);
      var m: nat :| started.requests <= m && at(m) == j;
    } else {
      j := at(n);
      OpenIsDone(c.file, started.outcome, versions[j].header, Some(versions[j].tag));
      HeldIsRead(c, started.outcome.value, window, versions[j].header, Some(versions[j].tag), resume, n);
      var plain := c.file.plains[versions[j].header];
      assert sink <= plain;
      assert sink + Slice(plain, window) == plain;
    }
  }

  /** If the object is replaced at most three times, counting a resumed version that is gone already, a
      download leaves a whole version that the host had meanwhile, with at most an attempt more than
      there were changes. */
  lemma {:induction false} DownloadSucceeds(
    c: Client, versions: seq<Version>, at: Schedule, n: nat, sink: Bytes, resume: Option<Text>) returns (j: nat)
    requires Authentic(c.file) && Moves(c, versions, at) && Stored(c.file, versions[at(n)].header)
    requires Vouched(c, versions[at(n)], sink, resume) && AtMost(at, n, if Stale(versions, at, n, resume) then 2 else 3)
    ensures HadLater(versions, at, n, j)
    ensures Downloaded(c, DownloadFrom(c, n, sink, |sink|, resume, 0), versions[j],
                       1 + j - at(n) + if Stale(versions, at, n, resume) then 1 else 0)
  {
    if Stale(versions, at, n, resume) {
      OpenStale(c, versions, at, n, Window(|sink|, None), resume);
      OneAttempt(c, n, sink, resume, 0);
      OnlyOnward(c, versions, at, n, n + 1);
      ServesNow(c, versions, at, n + 1);
      StillAtMost(at, n, n + 1, 2);
      j := CurrentFollows(c, versions, at, n + 1, [], None, 1);
      var m: nat :| n + 1 <= m && at(m) == j;
    } else {
      j := CurrentFollows(c, versions, at, n, sink, resume, 0);
    }
  }

  lemma StillAtMost(at: Schedule, n: nat, later: nat, changes: int)
    requires n <= later && at(n) <= at(later) && AtMost(at, n, changes)
    ensures AtMost(at, later, changes)
  {
    forall m: nat | later <= m
      ensures at(m) <= at(later) + changes
    {
      assert at(m) <= at(n) + changes;
    }
  }
}
