/** The cursor-based scanner `createTextMatch` that request matchers are built from. */
module TextMatch {
  import opened Text

  /** What one scanner holds: the text it scans, what it captured, and where it stands. */
  datatype Scan = Scan(buffer: Text, captured: seq<Text>, pos: int, error: bool)

  function Start(buffer: Text): Scan {
    Scan(buffer, [], 0, false)
  }

  /** The cursor of a scan that has not failed lies inside its buffer. */
  predicate InBounds(s: Scan) {
    !s.error ==> 0 <= s.pos <= |s.buffer|
  }

  /** One `capture(endMark)`: the text up to the mark is recorded, the mark is skipped.
      A missing mark is an error that no later capture undoes. */
  function AfterCapture(s: Scan, endMark: Text): (r: Scan)
    requires InBounds(s)
    ensures InBounds(r) && r.buffer == s.buffer
    ensures s.error ==> r == s
  {
    if s.error then s
    else
      var found := IndexOf(s.buffer, endMark, s.pos);
      if found < 0 then s.(pos := found, error := true)
      else
        s.(captured := s.captured + [s.buffer[s.pos..found]], pos := found + |endMark|)
  }

  function Consumed(s: Scan): int {
    if s.error then -1 else s.pos
  }

  /** The same scan over a buffer that received more text. */
  function Widen(s: Scan, more: Text): Scan {
    s.(buffer := s.buffer + more)
  }

  /** A capture that succeeded succeeds identically when more text follows. */
  lemma CaptureStable(s: Scan, more: Text, endMark: Text)
    requires InBounds(s) && !AfterCapture(s, endMark).error
    ensures AfterCapture(Widen(s, more), endMark) == Widen(AfterCapture(s, endMark), more)
  {
    IndexOfStable(s.buffer, more, endMark, s.pos);
    var found := IndexOf(s.buffer, endMark, s.pos);
    assert (s.buffer + more)[s.pos..found] == s.buffer[s.pos..found];
  }

  /** A capture of a printed line takes exactly that line. */
  lemma CaptureLine(s: Scan, line: Text)
    requires InBounds(s) && !s.error && OneLine(line) && OccursAt(s.buffer, line + CRLF, s.pos)
    ensures AfterCapture(s, CRLF) == s.(captured := s.captured + [line], pos := s.pos + |line| + 2)
  {
    IndexOfLineEnd(s.buffer, s.pos, line);
    OccursSplit(s.buffer, line, CRLF, s.pos);
  }

  class TextMatch {
    const buffer: Text
    var captured: seq<Text>
    var pos: int
    var error: bool

    function Scanned(): Scan
      reads this
    {
      Scan(buffer, captured, pos, error)
    }

    constructor (buffer: Text)
      ensures Scanned() == Start(buffer)
    {
      this.buffer := buffer;
      captured, pos, error := [], 0, false;
    }

    method Capture(endMark: Text)
      requires InBounds(Scanned())
      modifies this
      ensures InBounds(Scanned()) && Scanned() == AfterCapture(old(Scanned()), endMark)
    {
      if error {
        return;
      }
      var start := pos;
      pos := IndexOf(buffer, endMark, start);
      if pos < 0 {
        error := true;
        return;
      }
      captured := captured + [buffer[start..pos]];
      pos := pos + |endMark|;
      error := pos > |buffer|;
    }

    method Values() returns (values: seq<Text>)
      ensures values == captured
    {
      values := captured;
    }

    method Evaluate() returns (consumed: int)
      ensures consumed == Consumed(Scanned())
    {
      consumed := if error then -1 else pos;
    }
  }
}
