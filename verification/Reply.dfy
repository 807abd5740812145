/** Framing of one RESP reply on a request/response connection (`captureReply`). */
module Reply {
  import opened Text
  import opened TextMatch

  const NIL_HEADER: Text := [DOLLAR, MINUS, ZERO + 1]

  predicate StartsWith(t: Text, u: Unit) {
    t != [] && t[0] == u
  }

  /** `parseInt(t, 10)`: leading white space, a sign, then as many digits as there are. */
  function ParseInt(t: Text): Option<int> {
    var s := TrimStart(t);
    var negative := StartsWith(s, MINUS);
    var digits := DigitPrefix(if negative || StartsWith(s, PLUS) then s[1..] else s);
    if digits == [] then None
    else Some(if negative then 0 - DigitsValue(digits) as int else DigitsValue(digits))
  }

  function DigitPrefix(t: Text): (r: Text)
    ensures AllDigits(r) && r <= t
  {
    if t != [] && IsDigit(t[0]) then [t[0]] + DigitPrefix(t[1..]) else []
  }

  /** How many elements an array header announces; a header that is no number announces none. */
  function ElementCount(header: Text): nat
    requires header != []
  {
    match ParseInt(header[1..])
    case None => 0
    case Some(n) => Max(n, 0)
  }

  // ---- What the matcher does -----------------------------------------------------------

  /** One array element: a line, and after the header of a non-nil bulk, its body. */
  function CaptureElement(s: Scan): (r: Scan)
    requires InBounds(s)
    ensures InBounds(r) && r.buffer == s.buffer && (s.error ==> r.error)
  {
    var header := AfterCapture(s, CRLF);
    if header.captured != [] && IsBulkHeader(header.captured[|header.captured| - 1])
    then AfterCapture(header, CRLF) else header
  }

  predicate IsBulkHeader(header: Text) {
    StartsWith(header, DOLLAR) && header != NIL_HEADER
  }

  /** Elements `index` up to `count` of an array. */
  function CaptureElements(s: Scan, index: nat, count: nat): (r: Scan)
    requires InBounds(s)
    ensures InBounds(r) && r.buffer == s.buffer && (s.error ==> r.error)
    decreases count - index
  {
    if index >= count then s else CaptureElements(CaptureElement(s), index + 1, count)
  }

  function CaptureReply(s: Scan): (r: Scan)
    requires InBounds(s)
    ensures InBounds(r) && r.buffer == s.buffer && (s.error ==> r.error)
  {
    var m := AfterCapture(s, CRLF);
    if m.captured == [] then m
    else
      var header := m.captured[|m.captured| - 1];
      if StartsWith(header, DOLLAR) then
        if header == NIL_HEADER then m else AfterCapture(m, CRLF)
      else if StartsWith(header, STAR) then CaptureElements(m, 0, ElementCount(header))
      else m
  }

  /** The `fulfill` function `withMatch(captureReply)`. */
  function Fulfill(buffer: Text): int {
    Consumed(CaptureReply(Start(buffer)))
  }

  /** `captureReply` driving a scanner object. */
  method CaptureReplyFrom(m: TextMatch)
    requires InBounds(m.Scanned())
    modifies m
    ensures InBounds(m.Scanned()) && m.Scanned() == CaptureReply(old(m.Scanned()))
  {
    m.Capture(CRLF);
    var values := m.Values();
    if values == [] {
      return;
    }
    var header := values[|values| - 1];
    if StartsWith(header, DOLLAR) {
      if header != NIL_HEADER {
        m.Capture(CRLF);
      }
      return;
    }
    if StartsWith(header, STAR) {
      var count := ElementCount(header);
      ghost var whole := CaptureElements(m.Scanned(), 0, count);
      for index := 0 to count
        invariant InBounds(m.Scanned())
        invariant CaptureElements(m.Scanned(), index, count) == whole
      {
        m.Capture(CRLF);
        values := m.Values();
        if values != [] && IsBulkHeader(values[|values| - 1]) {
          m.Capture(CRLF);
        }
      }
    }
  }

  // ---- Flat replies ----------------------------------------------------------------------

  /** An element of a flat array: one line, a nil bulk, or a bulk whose body holds no CRLF. */
  datatype Element = Line(text: Text) | Nil | Bulk(header: Text, body: Text)

  datatype FlatReply = Single(element: Element) | Array(header: Text, elements: seq<Element>)

  predicate WellFormedElement(e: Element) {
    match e
    case Line(text) => OneLine(text) && !StartsWith(text, DOLLAR)
    case Nil => true
    case Bulk(header, body) => IsBulkHeader(header) && OneLine(header) && OneLine(body)
  }

  predicate AllWellFormed(elements: seq<Element>) {
    forall i :: 0 <= i < |elements| ==> WellFormedElement(elements[i])
  }

  predicate WellFormed(r: FlatReply) {
    match r
    case Single(e) => WellFormedElement(e) && (e.Line? ==> !StartsWith(e.text, STAR))
    case Array(header, elements) =>
      && StartsWith(header, STAR) && OneLine(header) && ElementCount(header) == |elements|
      && AllWellFormed(elements)
  }

  function ElementLines(e: Element): seq<Text> {
    match e
    case Line(text) => [text]
    case Nil => [NIL_HEADER]
    case Bulk(header, body) => [header, body]
  }

  /** The lines the reply consists of, in order; also what a matcher captures from it. */
  function Lines(r: FlatReply): seq<Text> {
    match r
    case Single(e) => ElementLines(e)
    case Array(header, elements) => [header] + AllLines(elements)
  }

  function AllLines(elements: seq<Element>): seq<Text> {
    if |elements| == 0 then [] else ElementLines(elements[0]) + AllLines(elements[1..])
  }

  function PrintLines(lines: seq<Text>): Text {
    if |lines| == 0 then [] else lines[0] + CRLF + PrintLines(lines[1..])
  }

  /** The bytes of a reply on the wire. */
  function Print(r: FlatReply): Text {
    PrintLines(Lines(r))
  }

  lemma {:induction false} PrintLinesAppend(a: seq<Text>, b: seq<Text>)
    ensures PrintLines(a + b) == PrintLines(a) + PrintLines(b)
    decreases |a|
  {
    if |a| == 0 {
      assert a + b == b;
    } else {
      PrintLinesAppend(a[1..], b);
      assert (a + b)[1..] == a[1..] + b;
      assert a[0] + CRLF + (PrintLines(a[1..]) + PrintLines(b)) == a[0] + CRLF + PrintLines(a[1..]) + PrintLines(b);
    }
  }

  /** The scan after these lines were captured. */
  function Past(s: Scan, lines: seq<Text>): Scan {
    s.(captured := s.captured + lines, pos := s.pos + |PrintLines(lines)|)
  }

  lemma PastAppend(s: Scan, a: seq<Text>, b: seq<Text>)
    ensures Past(Past(s, a), b) == Past(s, a + b)
  {
    PrintLinesAppend(a, b);
    assert s.captured + a + b == s.captured + (a + b);
  }

  /** The first of the lines printed at the cursor is there, and the others follow it. */
  lemma {:induction false} FirstLine(s: Scan, lines: seq<Text>)
    requires InBounds(s) && !s.error && lines != [] && OccursAt(s.buffer, PrintLines(lines), s.pos)
    requires OneLine(lines[0])
    ensures AfterCapture(s, CRLF) == s.(captured := s.captured + [lines[0]], pos := s.pos + |lines[0]| + 2)
    ensures OccursAt(s.buffer, PrintLines(lines[1..]), s.pos + |lines[0]| + 2)
  {
    OccursSplit(s.buffer, lines[0] + CRLF, PrintLines(lines[1..]), s.pos);
    CaptureLine(s, lines[0]);
  }

  /** Scanning one printed element captures its lines and stops right after it. */
  lemma CapturesElement(s: Scan, e: Element)
    requires InBounds(s) && !s.error && WellFormedElement(e)
    requires OccursAt(s.buffer, PrintLines(ElementLines(e)), s.pos)
    ensures CaptureElement(s) == Past(s, ElementLines(e))
  {
    OneLineUnits(NIL_HEADER);
    FirstLine(s, ElementLines(e));
    if e.Bulk? {
      var header := AfterCapture(s, CRLF);
      FirstLine(header, [e.body]);
      assert s.captured + [e.header] + [e.body] == s.captured + ElementLines(e);
      assert ElementLines(e)[1..] == [e.body];
    }
  }

  lemma CapturesOneMore(s: Scan, elements: seq<Element>, index: nat, count: nat)
    requires InBounds(s) && |elements| > 0 && index < count
    requires CaptureElement(s) == Past(s, ElementLines(elements[0]))
    requires CaptureElements(CaptureElement(s), index + 1, count)
      == Past(CaptureElement(s), AllLines(elements[1..]))
    ensures CaptureElements(s, index, count) == Past(s, AllLines(elements))
  {
    PastAppend(s, ElementLines(elements[0]), AllLines(elements[1..]));
  }

  lemma {:induction false} CapturesElements(s: Scan, elements: seq<Element>, index: nat, count: nat)
    requires InBounds(s) && !s.error && AllWellFormed(elements) && count == index + |elements|
    requires OccursAt(s.buffer, PrintLines(AllLines(elements)), s.pos)
    ensures CaptureElements(s, index, count) == Past(s, AllLines(elements))
    decreases |elements|
  {
    if |elements| == 0 {
      assert s.captured + AllLines(elements) == s.captured;
    } else {
      var first, others := ElementLines(elements[0]), AllLines(elements[1..]);
      PrintLinesAppend(first, others);
      OccursSplit(s.buffer, PrintLines(first), PrintLines(others), s.pos);
      CapturesElement(s, elements[0]);
      CapturesElements(CaptureElement(s), elements[1..], index + 1, count);
      CapturesOneMore(s, elements, index, count);
    }
  }

  /** A flat reply followed by anything is framed exactly, and its lines are what is captured. */
  lemma FramesFlatReply(r: FlatReply, rest: Text)
    requires WellFormed(r)
    ensures Fulfill(Print(r) + rest) == |Print(r)|
    ensures CaptureReply(Start(Print(r) + rest)).captured == Lines(r)
  {
    var s := Start(Print(r) + rest);
    assert s.buffer[..|Print(r)|] == Print(r);
    OneLineUnits(NIL_HEADER);
    FirstLine(s, Lines(r));
    var m := AfterCapture(s, CRLF);
    match r {
      case Single(e) =>
        CapturesElement(s, e);
      case Array(header, elements) =>
        assert Lines(r)[1..] == AllLines(elements);
        CapturesElements(m, elements, 0, |elements|);
        assert m.captured + AllLines(elements) == Lines(r);
    }
  }

  // ---- Independence from how the stream is cut ---------------------------------------------

  lemma CaptureElementStable(s: Scan, more: Text)
    requires InBounds(s) && !CaptureElement(s).error
    ensures CaptureElement(Widen(s, more)) == Widen(CaptureElement(s), more)
  {
    CaptureStable(s, more, CRLF);
    var header := AfterCapture(s, CRLF);
    if CaptureElement(s) != header {
      CaptureStable(header, more, CRLF);
    }
  }

  lemma {:induction false} CaptureElementsStable(s: Scan, more: Text, index: nat, count: nat)
    requires InBounds(s) && !CaptureElements(s, index, count).error
    ensures CaptureElements(Widen(s, more), index, count) == Widen(CaptureElements(s, index, count), more)
    ensures !s.error && s.pos <= CaptureElements(s, index, count).pos
    decreases count - index
  {
    if index < count {
      CaptureElementStable(s, more);
      CaptureElementsStable(CaptureElement(s), more, index + 1, count);
    }
  }

  /** Whatever the buffer holds, once the matcher claims a length it claims the same length
      however much more has been received: the decision does not depend on the cut. */
  lemma FramingStable(buffer: Text, more: Text)
    requires Fulfill(buffer) >= 0
    ensures Fulfill(buffer + more) == Fulfill(buffer)
    ensures 2 <= Fulfill(buffer) <= |buffer|
  {
    var s := Start(buffer);
    assert Start(buffer + more) == Widen(s, more);
    CaptureStable(s, more, CRLF);
    var m := AfterCapture(s, CRLF);
    var header := m.captured[0];
    if IsBulkHeader(header) {
      CaptureStable(m, more, CRLF);
    } else if StartsWith(header, STAR) {
      CaptureElementsStable(m, more, 0, ElementCount(header));
    }
  }

  /** Every proper prefix of a flat reply makes the matcher wait. */
  lemma ProperPrefixWaits(r: FlatReply, cut: nat)
    requires WellFormed(r) && cut < |Print(r)|
    ensures Fulfill(Print(r)[..cut]) == -1
  {
    var head, tail := Print(r)[..cut], Print(r)[cut..];
    assert head + tail == Print(r) == Print(r) + [];
    FramesFlatReply(r, []);
    if Fulfill(head) >= 0 {
      FramingStable(head, tail);
      assert false;
    }
  }
}
