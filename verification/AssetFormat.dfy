/** The `yyt-enc v1` layout: a header, then fixed-size ciphertext segments, each ending in a tag.
    The first and the last segment are irregular. */
module AssetFormat {
  import opened Text

  const HEADER_LENGTH: nat := 40
  const HEADER_BYTE: nat := 0x28
  const SEGMENT_SIZE: nat := 65536
  const TAG_LENGTH: nat := 32
  const FIRST_PLAIN: nat := SEGMENT_SIZE - HEADER_LENGTH - TAG_LENGTH
  const LATER_PLAIN: nat := SEGMENT_SIZE - TAG_LENGTH
  const MIN_CIPHERTEXT: nat := HEADER_LENGTH + TAG_LENGTH
  const MAX_PLAIN: nat := 256 * 1024 * 1024
  const MAX_CIPHERTEXT: nat := MAX_PLAIN + HEADER_LENGTH + TAG_LENGTH * 4099

  /** `Math.ceil(a / b)`. */
  function CeilDiv(a: nat, b: nat): nat
    requires b > 0
  {
    (a + b - 1) / b
  }

  /** How many segments a ciphertext of this length has; `None` if no file encrypts to it. */
  function SegmentsOf(total: int): (r: Option<nat>)
    ensures r.Some? ==> r.value >= 1 && MIN_CIPHERTEXT <= total <= MAX_CIPHERTEXT
  {
    if total < MIN_CIPHERTEXT || total > MAX_CIPHERTEXT then None
    else if total <= SEGMENT_SIZE then Some(1)
    else
      var n := 1 + CeilDiv(total - SEGMENT_SIZE, SEGMENT_SIZE);
      if total - SEGMENT_SIZE * (n - 1) < TAG_LENGTH + 1 then None else Some(n)
  }

  function PlaintextLengthOf(total: int, n: nat): int {
    total - HEADER_LENGTH - TAG_LENGTH * n
  }

  function CipherStart(i: nat): nat {
    if i == 0 then HEADER_LENGTH else SEGMENT_SIZE * i
  }

  function PlainStart(i: nat): nat {
    if i == 0 then 0 else FIRST_PLAIN + LATER_PLAIN * (i - 1)
  }

  function SegmentOf(p: nat): nat {
    if p < FIRST_PLAIN then 0 else 1 + (p - FIRST_PLAIN) / LATER_PLAIN
  }

  /** Where a full segment would end. */
  function FullEnd(i: nat): nat {
    CipherStart(i) + if i == 0 then SEGMENT_SIZE - HEADER_LENGTH else SEGMENT_SIZE
  }

  function SegmentEnd(i: nat, total: nat): nat {
    Min(FullEnd(i), total)
  }

  // ---- The length map ------------------------------------------------------------------------

  /** How many segments a file of this many bytes is cut into. */
  function SegmentsFor(length: nat): (n: nat)
    ensures n >= 1
  {
    if length <= FIRST_PLAIN then 1 else 1 + CeilDiv(length - FIRST_PLAIN, LATER_PLAIN)
  }

  /** The ciphertext length of a file of this many bytes. */
  function CipherLength(length: nat): nat {
    HEADER_LENGTH + length + TAG_LENGTH * SegmentsFor(length)
  }

  /** Of two files the longer has the longer ciphertext, so no two lengths collide. */
  lemma LengthsIncrease(a: nat, b: nat)
    requires a < b
    ensures CipherLength(a) < CipherLength(b)
  {
    assert SegmentsFor(a) <= SegmentsFor(b);
  }

  /** A ciphertext length is accepted exactly if some allowed file has it, and then the segment
      count and the plaintext length are that file's. */
  lemma AcceptedExactly(total: int)
    ensures SegmentsOf(total).Some? <==> exists length: nat :: length <= MAX_PLAIN && CipherLength(length) == total
    ensures SegmentsOf(total).Some? ==>
      var n := SegmentsOf(total).value;
      var length := PlaintextLengthOf(total, n);
      0 <= length <= MAX_PLAIN && SegmentsFor(length) == n && CipherLength(length) == total
  {
    if SegmentsOf(total).Some? {
      AcceptedLength(total);
    }
    if length: nat :| length <= MAX_PLAIN && CipherLength(length) == total {
      LengthAccepted(length);
    }
  }

  lemma AcceptedLength(total: int)
    requires SegmentsOf(total).Some?
    ensures var n := SegmentsOf(total).value;
      var length := PlaintextLengthOf(total, n);
      0 <= length <= MAX_PLAIN && SegmentsFor(length) == n && CipherLength(length) == total
  {
  }

  lemma LengthAccepted(length: nat)
    requires length <= MAX_PLAIN
    ensures SegmentsOf(CipherLength(length)) == Some(SegmentsFor(length))
    ensures PlaintextLengthOf(CipherLength(length), SegmentsFor(length)) == length
  {
  }

  // ---- The partition ----------------------------------------------------------------------------

  /** How many plaintext bytes segment `i` holds. */
  function PlainSize(i: nat, length: nat): int {
    Min(PlainStart(i + 1), length) - PlainStart(i)
  }

  /** The segments of a file follow one another without gap, from the header to the end, and each
      is its plaintext and a tag. Only the last may be shorter, and it is empty only alone. */
  lemma SegmentsPartition(length: nat, i: nat)
    requires i < SegmentsFor(length)
    ensures var n, total := SegmentsFor(length), CipherLength(length);
      && SegmentEnd(i, total) == (if i == n - 1 then total else CipherStart(i + 1))
      && SegmentEnd(i, total) - CipherStart(i) == PlainSize(i, length) + TAG_LENGTH
      && 0 <= PlainSize(i, length) && PlainStart(i) <= length
      && (i < n - 1 ==> PlainStart(i + 1) < length)
      && (i == n - 1 ==> length <= PlainStart(i + 1))
  {
  }

  /** The layout in numbers: forty bytes of header, segments of 64 KiB that each end in a tag of 32
      bytes, and at most 256 MiB of plaintext. */
  lemma LayoutIs(length: nat, i: nat)
    requires i < SegmentsFor(length)
    ensures CipherStart(i) == if i == 0 then 40 else 65536 * i
    ensures var end := SegmentEnd(i, CipherLength(length));
      && end == (if i == SegmentsFor(length) - 1 then CipherLength(length) else 65536 * (i + 1))
      && end - CipherStart(i) == PlainSize(i, length) + 32
    ensures CipherLength(length) == 40 + length + 32 * SegmentsFor(length)
    ensures SegmentsOf(CipherLength(length)).Some? <==> length <= 268435456
  {
    SegmentsPartition(length, i);
    AcceptedExactly(CipherLength(length));
    if SegmentsOf(CipherLength(length)).Some? {
      var other: nat :| other <= MAX_PLAIN && CipherLength(other) == CipherLength(length);
      if other < length {
        LengthsIncrease(other, length);
      } else if length < other {
        LengthsIncrease(length, other);
      }
    }
  }

  /** `segmentOf` names the one segment that holds the byte. */
  lemma SegmentOfIsTheOne(length: nat, p: nat, i: nat)
    requires p < length
    ensures SegmentOf(p) < SegmentsFor(length)
    ensures PlainStart(i) <= p < PlainStart(i + 1) <==> i == SegmentOf(p)
  {
  }
}
