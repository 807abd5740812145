/** One encrypted file: every version it ever had, what verifies under a version's keys, and
    which segments a window of plaintext needs. */
module AssetFile {
  import opened Text
  import opened AssetFormat
  import opened BodyReader

  /** `plains` and `stored` give the plaintext and the ciphertext of every version, by header:
      the header holds a random salt, so no two versions share one. `tags` gives the header of the
      version an entity tag names. `open` verifies a segment under the keys a header derives, for
      this file's name, and decrypts it. */
  datatype File = File(
    plains: map<Bytes, Bytes>, stored: map<Bytes, Bytes>, tags: map<Text, Bytes>,
    open: (Bytes, nat, bool, Bytes) -> Option<Bytes>)

  function SegmentPlain(plain: Bytes, i: nat): Bytes
    requires i < SegmentsFor(|plain|)
  {
    SegmentsPartition(|plain|, i);
    plain[PlainStart(i)..Min(PlainStart(i + 1), |plain|)]
  }

  /** The only segments that verify are the ones sealed: under their own version's header, at
      their own index, with their own last-segment flag. Stands for HMAC and the derived keys. */
  ghost predicate Authentic(file: File) {
    forall header: Bytes, i: nat, last: bool, segment: Bytes ::
      file.open(header, i, last, segment).Some? ==> Genuine(file, header, i, last, segment)
  }

  predicate Genuine(file: File, header: Bytes, i: nat, last: bool, segment: Bytes) {
    && header in file.plains && i < SegmentsFor(|file.plains[header]|)
    && last == (i == SegmentsFor(|file.plains[header]|) - 1)
    && file.open(header, i, last, segment) == Some(SegmentPlain(file.plains[header], i))
    && |segment| == |SegmentPlain(file.plains[header], i)| + TAG_LENGTH
  }

  /** A version as an honest upload stores it. */
  predicate Stored(file: File, header: Bytes) {
    && header in file.plains && header in file.stored
    && |header| == HEADER_LENGTH && header[0] == HEADER_BYTE
    && |file.plains[header]| <= MAX_PLAIN
    && |file.stored[header]| == CipherLength(|file.plains[header]|)
    && file.stored[header][..HEADER_LENGTH] == header
    && forall i: nat :: i < SegmentsFor(|file.plains[header]|) ==> StoredSegment(file, header, i)
  }

  predicate StoredSegment(file: File, header: Bytes, i: nat)
    requires header in file.plains && header in file.stored
    requires i < SegmentsFor(|file.plains[header]|) && |file.stored[header]| == CipherLength(|file.plains[header]|)
  {
    SegmentsPartition(|file.plains[header]|, i);
    var cipher := file.stored[header];
    file.open(header, i, i == SegmentsFor(|file.plains[header]|) - 1, cipher[CipherStart(i)..SegmentEnd(i, |cipher|)])
      == Some(SegmentPlain(file.plains[header], i))
  }

  // ---- Decryptor and plan -----------------------------------------------------------------------

  datatype Decryptor = Decryptor(header: Bytes, total: nat, segments: nat, plaintextLength: nat)

  /** `openDecryptor`: the length must be one a file can have, and the header well formed. */
  function OpenDecryptor(header: Bytes, total: nat): Option<Decryptor> {
    if SegmentsOf(total).None? || |header| != HEADER_LENGTH || header[0] != HEADER_BYTE then None
    else
      AcceptedExactly(total);
      Some(Decryptor(header, total, SegmentsOf(total).value, PlaintextLengthOf(total, SegmentsOf(total).value)))
  }

  ghost predicate WellFormed(d: Decryptor) {
    OpenDecryptor(d.header, d.total) == Some(d)
  }

  lemma WellFormedLengths(d: Decryptor)
    requires WellFormed(d)
    ensures d.segments == SegmentsFor(d.plaintextLength) && d.total == CipherLength(d.plaintextLength)
    ensures d.plaintextLength <= MAX_PLAIN && |d.header| == HEADER_LENGTH
  {
    AcceptedExactly(d.total);
  }

  /** `open`: exactly the segment's extent, verified with the flag its index implies. */
  function OpenSegment(file: File, d: Decryptor, i: nat, segment: Bytes): Option<Bytes> {
    if i >= d.segments || |segment| != SegmentEnd(i, d.total) - CipherStart(i) then None
    else file.open(d.header, i, i == d.segments - 1, segment)
  }

  datatype Window = Window(start: nat, end: Option<nat>)

  datatype Plan = Plan(start: nat, end: nat, first: nat, last: nat)

  /** `planWindow`: an empty window still needs the last segment, which proves the length. */
  function PlanWindow(total: nat, window: Window): Option<Plan> {
    match SegmentsOf(total)
    case None => None
    case Some(segments) =>
      AcceptedExactly(total);
      var length: nat := PlaintextLengthOf(total, segments);
      var start := Min(window.start, length);
      var end := if window.end.Some? then Min(window.end.value, length) else length;
      if start >= end then Some(Plan(start, end, segments - 1, segments - 1))
      else Some(Plan(start, end, SegmentOf(start), SegmentOf(end - 1)))
  }

  /** The specification of a ranged read: the plaintext slice, clamped to the file. */
  function Slice(plain: Bytes, window: Window): Bytes {
    var start := Min(window.start, |plain|);
    var end := if window.end.Some? then Min(window.end.value, |plain|) else |plain|;
    if start < end then plain[start..end] else []
  }

  // ---- What a verified segment proves ---------------------------------------------------------------

  /** Segment `i - 1` verified: it is the file's, and if it was opened as the last one, the claimed
      length is the file's length. */
  predicate Verified(file: File, d: Decryptor, i: nat) {
    && d.header in file.plains
    && var n := SegmentsFor(|file.plains[d.header]|);
       && 0 < i <= n && i <= d.segments && (i == d.segments <==> i == n)
       && (i == d.segments ==> d.plaintextLength == |file.plains[d.header]|)
  }

  lemma SegmentVerifies(file: File, d: Decryptor, i: nat, segment: Bytes)
    requires Authentic(file) && WellFormed(d) && OpenSegment(file, d, i, segment).Some?
    ensures Verified(file, d, i + 1) && OpenSegment(file, d, i, segment).value == SegmentPlain(file.plains[d.header], i)
  {
    WellFormedLengths(d);
    SegmentsPartition(d.plaintextLength, i);
    assert Genuine(file, d.header, i, i == d.segments - 1, segment);
    SegmentsPartition(|file.plains[d.header]|, i);
  }

  /** What may be released once the segments before `i` have verified. */
  function Released(plain: Bytes, plan: Plan, i: nat): Bytes {
    var end := Min(Min(plan.end, PlainStart(i)), |plain|);
    if plan.start < end then plain[plan.start..end] else []
  }

  /** The part of segment `i` inside the window. */
  function PartOf(piece: Bytes, plan: Plan, i: nat): Bytes {
    var at := PlainStart(i);
    var lo, hi := Max(plan.start - at, 0), Min(plan.end - at, |piece|);
    if lo < hi then piece[lo..hi] else []
  }

  lemma SliceOfSlice(s: Bytes, a: nat, b: nat, lo: nat, hi: nat)
    requires a <= b <= |s| && lo <= hi <= b - a
    ensures s[a..b][lo..hi] == s[a + lo..a + hi]
  {
    assert |s[a..b]| == b - a;
    var x, y := s[a..b][lo..hi], s[a + lo..a + hi];
    assert |x| == |y|;
    forall k | 0 <= k < hi - lo
      ensures x[k] == y[k]
    {
      assert x[k] == s[a..b][lo + k] == s[a + (lo + k)];
      assert y[k] == s[a + lo + k];
    }
  }

  lemma ReleasedMore(plain: Bytes, plan: Plan, i: nat)
    requires i < SegmentsFor(|plain|) && plan.start <= PlainStart(i + 1)
    requires plan.start < plan.end ==> SegmentOf(plan.start) <= i
    ensures Released(plain, plan, i) + PartOf(SegmentPlain(plain, i), plan, i) == Released(plain, plan, i + 1)
  {
    SegmentsPartition(|plain|, i);
    var at, to := PlainStart(i), Min(PlainStart(i + 1), |plain|);
    PieceOfWindow(plain, plan, at, to);
    ReleasedUpTo(plain, plan, i, at);
    ReleasedUpTo(plain, plan, i + 1, to);
  }

  lemma ReleasedUpTo(plain: Bytes, plan: Plan, i: nat, at: nat)
    requires at == Min(PlainStart(i), |plain|)
    ensures Released(plain, plan, i) == if plan.start < Min(plan.end, at) then plain[plan.start..Min(plan.end, at)] else []
  {
  }

  /** The same for any cut: `[at, to)` is the next piece after everything up to `at`. */
  lemma PieceOfWindow(plain: Bytes, plan: Plan, at: nat, to: nat)
    requires at <= to <= |plain|
    ensures var lo, hi := Max(plan.start - at, 0), Min(plan.end - at, to - at);
      var part := if lo < hi then plain[at..to][lo..hi] else [];
      var before := if plan.start < Min(plan.end, at) then plain[plan.start..Min(plan.end, at)] else [];
      var after := if plan.start < Min(plan.end, to) then plain[plan.start..Min(plan.end, to)] else [];
      before + part == after
  {
    var lo, hi := Max(plan.start - at, 0), Min(plan.end - at, to - at);
    if lo < hi {
      SliceOfSlice(plain, at, to, lo, hi);
      if plan.start < at {
        JoinSlices(plain, plan.start, at, at + hi);
      }
    }
  }

  lemma JoinSlices(s: Bytes, start: nat, middle: nat, end: nat)
    requires start < middle <= end <= |s|
    ensures s[start..middle] + s[middle..end] == s[start..end]
  {
  }

  lemma PlanStarts(total: nat, window: Window)
    requires PlanWindow(total, window).Some?
    ensures var plan := PlanWindow(total, window).value;
      && plan.first <= plan.last < SegmentsOf(total).value
      && (plan.start < plan.end ==> plan.first == SegmentOf(plan.start) && plan.last == SegmentOf(plan.end - 1))
      && (plan.start >= plan.end ==> plan.first == plan.last == SegmentsOf(total).value - 1)
      && plan.start <= PlainStart(plan.first + 1)
  {
    AcceptedExactly(total);
    var length: nat := PlaintextLengthOf(total, SegmentsOf(total).value);
    var plan := PlanWindow(total, window).value;
    if plan.start < plan.end {
      SegmentOfIsTheOne(length, plan.start, plan.first);
      SegmentOfIsTheOne(length, plan.end - 1, plan.last);
      SegmentOfGrows(plan.start, plan.end - 1);
    } else {
      SegmentsPartition(length, plan.first);
    }
  }

  lemma SegmentOfGrows(p: nat, q: nat)
    requires p <= q
    ensures SegmentOf(p) <= SegmentOf(q)
  {
  }

  /** Nothing is released before the first segment. */
  lemma ReleasedNothing(plain: Bytes, total: nat, window: Window)
    requires PlanWindow(total, window).Some?
    ensures var plan := PlanWindow(total, window).value;
      Released(plain, plan, plan.first) == []
  {
    AcceptedExactly(total);
    var length: nat := PlaintextLengthOf(total, SegmentsOf(total).value);
    var plan := PlanWindow(total, window).value;
    if plan.start < plan.end {
      SegmentOfIsTheOne(length, plan.start, plan.first);
    }
  }

  /** Once the last segment of the plan verified, what was released is the slice: the claimed
      length mattered only if it was proved. */
  lemma ReleasedAll(file: File, d: Decryptor, window: Window)
    requires WellFormed(d) && PlanWindow(d.total, window).Some?
    requires Verified(file, d, PlanWindow(d.total, window).value.last + 1)
    ensures var plain, plan := file.plains[d.header], PlanWindow(d.total, window).value;
      && Released(plain, plan, plan.last + 1) == Slice(plain, window)
      && (window.end.None? ==> d.plaintextLength == |plain|)
  {
    WellFormedLengths(d);
    var plain, plan := file.plains[d.header], PlanWindow(d.total, window).value;
    PlanStarts(d.total, window);
    if plan.last == d.segments - 1 {
      SegmentsPartition(d.plaintextLength, plan.last);
    } else {
      SegmentOfIsTheOne(d.plaintextLength, plan.end - 1, plan.last);
      SegmentsPartition(d.plaintextLength, plan.last);
      SegmentsPartition(|plain|, plan.last);
    }
  }

  /** Whatever was released is a beginning of the file from the window's start on. */
  lemma ReleasedIsPrefix(plain: Bytes, total: nat, window: Window, i: nat)
    requires PlanWindow(total, window).Some?
    ensures var plan := PlanWindow(total, window).value;
      Released(plain, plan, i) <= Slice(plain, Window(window.start, None))
  {
    AcceptedExactly(total);
    var plan := PlanWindow(total, window).value;
    var end := Min(Min(plan.end, PlainStart(i)), |plain|);
    if plan.start < end {
      assert plan.start == window.start;
      assert plain[plan.start..end] == plain[plan.start..|plain|][..end - plan.start];
    }
  }
}
