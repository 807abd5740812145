/** Reading whole frames from the head of a Redis subscriber stream (`parsePushFrame`). */
module PushFrame {
  import opened Text
  import opened Unsolicited

  datatype PushFrame =
    | Message(channel: Text, payload: Text)
    | Subscription(event: Text, channel: Text, count: Option<int>)
    | Other

  /** `Incomplete` waits for more input; `Invalid` stands for a thrown error. */
  datatype Parse = Incomplete | Invalid | Parsed(consumed: nat, frame: PushFrame)

  datatype Read = Short | Broken | Got(value: Option<Text>, next: nat)

  const MESSAGE: Text := ['m' as int, 'e' as int, 's' as int, 's' as int, 'a' as int, 'g' as int, 'e' as int]
  const SUBSCRIBE: Text := ['s' as int, 'u' as int, 'b' as int, 's' as int, 'c' as int, 'r' as int,
                            'i' as int, 'b' as int, 'e' as int]
  const UNSUBSCRIBE: Text := ['u' as int, 'n' as int] + SUBSCRIBE

  // ---- The parser -----------------------------------------------------------------------

  function ReadLine(buffer: Text, position: nat): (r: Read)
    requires position <= |buffer|
    ensures r != Broken && (r.Got? ==> r.value.Some? && position + 2 <= r.next <= |buffer|)
  {
    var end := IndexOf(buffer, CRLF, position);
    if end < 0 then Short else Got(Some(buffer[position..end]), end + 2)
  }

  function WithoutMarker(t: Text): Text {
    if |t| == 0 then t else t[1..]
  }

  function ReadInline(buffer: Text, position: nat): (r: Read)
    requires position <= |buffer|
    ensures r.Got? ==> position + 2 <= r.next <= |buffer|
  {
    match ReadLine(buffer, position)
    case Got(Some(line), next) => Got(Some(WithoutMarker(line)), next)
    case _ => Short
  }

  /** Where walking code points ends, and how many bytes that was. */
  datatype Walked = Walked(index: nat, bytes: nat)

  function Walk(buffer: Text, index: nat, bytes: nat, byteLength: nat): (w: Walked)
    requires index <= |buffer|
    ensures index <= w.index <= |buffer| && bytes <= w.bytes
    decreases |buffer| - index
  {
    if index < |buffer| && bytes < byteLength then
      Walk(buffer, index + CodePointUnits(buffer, index),
           bytes + Utf8Length(CodePointAt(buffer, index)), byteLength)
    else Walked(index, bytes)
  }

  function ReadBulk(buffer: Text, position: nat): (r: Read)
    requires position <= |buffer|
    ensures r.Got? ==> position + 2 <= r.next <= |buffer|
  {
    match ReadLine(buffer, position)
    case Got(Some(header), next) =>
      (match ToInteger(WithoutMarker(header))
       case None => Broken
       case Some(byteLength) =>
         if byteLength < 0 then Got(None, next)
         else
           var w := Walk(buffer, next, 0, byteLength);
           if w.bytes < byteLength then Short
           else if w.bytes > byteLength then Broken
           else if |buffer| < w.index + 2 then Short
           else Got(Some(buffer[next..w.index]), w.index + 2))
    case _ => Short
  }

  function ReadElement(buffer: Text, position: nat): (r: Read)
    requires position <= |buffer|
    ensures r.Got? ==> position + 2 <= r.next <= |buffer|
  {
    if position < |buffer| && buffer[position] == DOLLAR then ReadBulk(buffer, position)
    else ReadInline(buffer, position)
  }

  function ReadElements(buffer: Text, position: nat, parts: seq<Option<Text>>, index: nat, count: nat): (p: Parse)
    requires position <= |buffer|
    ensures p.Parsed? ==> position <= p.consumed <= |buffer|
    decreases count - index
  {
    if index >= count then Parsed(position, ToFrame(parts))
    else
      match ReadElement(buffer, position)
      case Short => Incomplete
      case Broken => Invalid
      case Got(value, next) => ReadElements(buffer, next, parts + [value], index + 1, count)
  }

  function ToFrame(parts: seq<Option<Text>>): PushFrame {
    if |parts| < 2 || parts[1].None? then Other
    else
      var kind, channel := parts[0], parts[1].value;
      if kind == Some(MESSAGE) && |parts| > 2 && parts[2].Some? then Message(channel, parts[2].value)
      else if kind == Some(SUBSCRIBE) || kind == Some(UNSUBSCRIBE) then
        Subscription(kind.value, channel,
          if |parts| > 2 && parts[2].Some? then ToInteger(parts[2].value) else Some(0))
      else Other
  }

  function ParsePushFrame(buffer: Text): (p: Parse)
    ensures p.Parsed? ==> 2 <= p.consumed <= |buffer|
  {
    match ReadLine(buffer, 0)
    case Got(Some(header), next) =>
      if |header| == 0 || header[0] != STAR then Parsed(next, Other)
      else
        (match ToInteger(header[1..])
         case None => Invalid
         case Some(count) =>
           if count < 0 then Parsed(next, Other) else ReadElements(buffer, next, [], 0, count))
    case _ => Incomplete
  }

  // ---- The loops of the source --------------------------------------------------------------

  /** `charactersForBytes`: how many characters from `start` encode `byteLength` bytes. */
  method CharactersForBytes(buffer: Text, start: nat, byteLength: nat) returns (r: Option<int>)
    requires start <= |buffer|
    ensures var w := Walk(buffer, start, 0, byteLength);
      r == (if w.bytes < byteLength then Some(-1)
            else if w.bytes > byteLength then None
            else Some(w.index - start))
  {
    var bytes: nat, index: nat := 0, start;
    while index < |buffer| && bytes < byteLength
      invariant index <= |buffer|
      invariant Walk(buffer, index, bytes, byteLength) == Walk(buffer, start, 0, byteLength)
      decreases |buffer| - index
    {
      var codePoint := CodePointAt(buffer, index);
      bytes, index := bytes + Utf8Length(codePoint), index + (if codePoint > 0xFFFF then 2 else 1);
    }
    if bytes < byteLength {
      return Some(-1);
    }
    if bytes > byteLength {
      return None;
    }
    return Some(index - start);
  }

  /** `parsePushFrame`, with its loop over the announced elements. */
  method ParseFrame(buffer: Text) returns (p: Parse)
    ensures p == ParsePushFrame(buffer)
  {
    if |buffer| == 0 {
      return Incomplete;
    }
    var header := ReadLine(buffer, 0);
    if header.Short? {
      return Incomplete;
    }
    var line := header.value.value;
    if |line| == 0 || line[0] != STAR {
      return Parsed(header.next, Other);
    }
    var count := ToInteger(line[1..]);
    if count.None? {
      return Invalid;
    }
    if count.value < 0 {
      return Parsed(header.next, Other);
    }
    var parts: seq<Option<Text>>, position: nat := [], header.next;
    for index := 0 to count.value
      invariant position <= |buffer|
      invariant ReadElements(buffer, position, parts, index, count.value)
             == ReadElements(buffer, header.next, [], 0, count.value)
    {
      var element := ReadElement(buffer, position);
      match element {
        case Short => return Incomplete;
        case Broken => return Invalid;
        case Got(value, next) => parts, position := parts + [value], next;
      }
    }
    return Parsed(position, ToFrame(parts));
  }

  // ---- Well-formed flat frames ---------------------------------------------------------------

  /** What the server prints inside an array: any text as a bulk, a nil bulk, or one marked
      line such as `:1`. Bulk payloads are unrestricted, CRLF and multi-byte text included. */
  datatype Element = Bulk(payload: Text) | NilBulk | Inline(line: Text)

  datatype Frame = Line(line: Text) | NullArray | Array(elements: seq<Element>)

  predicate WellFormedElement(e: Element) {
    e.Inline? ==> OneLine(e.line) && (|e.line| > 0 ==> e.line[0] != DOLLAR)
  }

  predicate AllWellFormed(elements: seq<Element>) {
    forall i :: 0 <= i < |elements| ==> WellFormedElement(elements[i])
  }

  predicate WellFormed(f: Frame) {
    match f
    case Line(line) => OneLine(line) && (|line| > 0 ==> line[0] != STAR)
    case NullArray => true
    case Array(elements) => AllWellFormed(elements)
  }

  function PrintElement(e: Element): Text {
    match e
    case Bulk(payload) => [DOLLAR] + PrintInt(ByteLength(payload)) + CRLF + (payload + CRLF)
    case NilBulk => [DOLLAR] + PrintInt(-1) + CRLF
    case Inline(line) => line + CRLF
  }

  function ElementValue(e: Element): Option<Text> {
    match e
    case Bulk(payload) => Some(payload)
    case NilBulk => None
    case Inline(line) => Some(WithoutMarker(line))
  }

  function PrintElements(elements: seq<Element>): Text {
    if |elements| == 0 then [] else PrintElement(elements[0]) + PrintElements(elements[1..])
  }

  function Values(elements: seq<Element>): seq<Option<Text>> {
    if |elements| == 0 then [] else [ElementValue(elements[0])] + Values(elements[1..])
  }

  function Print(f: Frame): (t: Text)
    ensures |t| >= 2
  {
    match f
    case Line(line) => line + CRLF
    case NullArray => [STAR] + PrintInt(-1) + CRLF
    case Array(elements) => [STAR] + PrintInt(|elements|) + CRLF + PrintElements(elements)
  }

  // ---- What a frame means, by its elements ----------------------------------------------------

  /** An array that names this event first and then a channel. */
  predicate Names(f: Frame, event: Text) {
    f.Array? && |f.elements| >= 2 && ElementValue(f.elements[0]) == Some(event) && ElementValue(f.elements[1]).Some?
  }

  predicate IsMessage(f: Frame) {
    Names(f, MESSAGE) && |f.elements| >= 3 && ElementValue(f.elements[2]).Some?
  }

  predicate IsConfirmation(f: Frame) {
    Names(f, SUBSCRIBE) || Names(f, UNSUBSCRIBE)
  }

  /** What a frame is read as: a message has its channel before its payload; a confirmation counts
      zero if it has no third element, and has no count if that is no integer. */
  predicate ReadAs(f: Frame, frame: PushFrame) {
    if IsMessage(f) then
      && frame.Message?
      && ElementValue(f.elements[1]) == Some(frame.channel) && ElementValue(f.elements[2]) == Some(frame.payload)
    else if IsConfirmation(f) then
      && frame.Subscription?
      && ElementValue(f.elements[0]) == Some(frame.event) && ElementValue(f.elements[1]) == Some(frame.channel)
      && frame.count == if |f.elements| == 2 || ElementValue(f.elements[2]).None? then Some(0)
                        else ToInteger(ElementValue(f.elements[2]).value)
    else frame == Other
  }

  // ---- Exactness: a printed frame is read back whatever follows it ----------------------------

  lemma ReadsLine(buffer: Text, position: nat, line: Text)
    requires OneLine(line) && OccursAt(buffer, line + CRLF, position)
    ensures ReadLine(buffer, position) == Got(Some(line), position + |line| + 2)
  {
    IndexOfLineEnd(buffer, position, line);
    OccursSplit(buffer, line, CRLF, position);
  }

  /** A marker followed by a printed integer is one line, and the integer is read back. */
  lemma CountLine(marker: Unit, n: int)
    requires marker in {STAR, DOLLAR}
    ensures OneLine([marker] + PrintInt(n)) && WithoutMarker([marker] + PrintInt(n)) == PrintInt(n)
    ensures ToInteger(PrintInt(n)) == Some(n)
  {
    var line := [marker] + PrintInt(n);
    PrintIntOneLine(n);
    OneLineUnits(PrintInt(n));
    forall i, j | 0 <= i && j == i + 1 && j < |line|
      ensures !(line[i] == CR && line[j] == LF)
    {
      if i > 0 {
        assert line[i] == PrintInt(n)[i - 1] && line[j] == PrintInt(n)[j - 1];
      }
    }
    OneLineUnits(line);
    ToIntegerOfPrint(n);
  }

  /** The line break after a payload cannot be drawn into its last code point, so walking the
      buffer counts what the payload was measured to be. */
  lemma {:induction false} WalksPayload(buffer: Text, index: nat, payload: Text, bytes: nat, byteLength: nat)
    requires index <= |buffer| && OccursAt(buffer, payload + CRLF, index)
    requires byteLength == bytes + ByteLength(payload)
    ensures Walk(buffer, index, bytes, byteLength) == Walked(index + |payload|, byteLength)
    decreases |payload|
  {
    if |payload| > 0 {
      var whole := payload + CRLF;
      assert whole[0] == buffer[index..index + |whole|][0] == buffer[index];
      assert whole[1] == buffer[index..index + |whole|][1] == buffer[index + 1];
      assert CodePointUnits(buffer, index) == CodePointUnits(payload, 0);
      var n := CodePointUnits(payload, 0);
      assert CodePointAt(buffer, index) == CodePointAt(payload, 0);
      assert whole == payload[..n] + (payload[n..] + CRLF);
      OccursSplit(buffer, payload[..n], payload[n..] + CRLF, index);
      WalksPayload(buffer, index + n, payload[n..], bytes + Utf8Length(CodePointAt(payload, 0)), byteLength);
    }
  }

  /** The payload of a bulk, once its size is known. */
  lemma {:induction false} ReadsPayload(buffer: Text, start: nat, payload: Text)
    requires start <= |buffer| && OccursAt(buffer, payload + CRLF, start)
    ensures Walk(buffer, start, 0, ByteLength(payload)) == Walked(start + |payload|, ByteLength(payload))
    ensures start + |payload| + 2 <= |buffer| && buffer[start..start + |payload|] == payload
  {
    WalksPayload(buffer, start, payload, 0, ByteLength(payload));
    OccursSplit(buffer, payload, CRLF, start);
  }

  /** The branches of `ReadBulk` for a payload that is all there. */
  lemma {:induction false} TakesPayload(
    buffer: Text, position: nat, header: Text, next: nat, payload: Text, index: nat, byteLength: nat, end: nat)
    requires position <= |buffer| && ReadLine(buffer, position) == Got(Some(header), next)
    requires ToInteger(WithoutMarker(header)) == Some(byteLength)
    requires Walk(buffer, next, 0, byteLength) == Walked(index, byteLength)
    requires end == index + 2 <= |buffer| && buffer[next..index] == payload
    ensures ReadBulk(buffer, position) == Got(Some(payload), end)
  {
  }

  lemma {:induction false} ReadsBulk(buffer: Text, position: nat, payload: Text, header: Text, start: nat, end: nat)
    requires position <= |buffer| && OccursAt(buffer, header + CRLF, position)
    requires start == position + |header| + 2 && OccursAt(buffer, payload + CRLF, start)
    requires OneLine(header) && ToInteger(WithoutMarker(header)) == Some(ByteLength(payload))
    requires end == start + |payload| + 2
    ensures ReadBulk(buffer, position) == Got(Some(payload), end)
  {
    ReadsLine(buffer, position, header);
    ReadsPayload(buffer, start, payload);
    TakesPayload(buffer, position, header, start, payload, start + |payload|, ByteLength(payload), end);
  }

  lemma FirstUnit(buffer: Text, t: Text, at: nat)
    requires OccursAt(buffer, t, at) && |t| > 0
    ensures buffer[at] == t[0]
  {
    assert t[0] == buffer[at..at + |t|][0];
  }

  lemma ReadsBulkElement(buffer: Text, position: nat, payload: Text)
    requires position <= |buffer| && WellFormedElement(Bulk(payload)) && OccursAt(buffer, PrintElement(Bulk(payload)), position)
    ensures ReadElement(buffer, position) == Got(ElementValue(Bulk(payload)), position + |PrintElement(Bulk(payload))|)
  {
    FirstUnit(buffer, PrintElement(Bulk(payload)), position);
    var header := [DOLLAR] + PrintInt(ByteLength(payload));
    CountLine(DOLLAR, ByteLength(payload));
    OccursSplit(buffer, header + CRLF, payload + CRLF, position);
    var start := position + |header| + 2;
    ReadsBulk(buffer, position, payload, header, start, start + |payload| + 2);
  }

  lemma ReadsNilElement(buffer: Text, position: nat)
    requires position <= |buffer| && OccursAt(buffer, PrintElement(NilBulk), position)
    ensures ReadElement(buffer, position) == Got(ElementValue(NilBulk), position + |PrintElement(NilBulk)|)
  {
    FirstUnit(buffer, PrintElement(NilBulk), position);
    CountLine(DOLLAR, -1);
    ReadsLine(buffer, position, [DOLLAR] + PrintInt(-1));
  }

  lemma ReadsElement(buffer: Text, position: nat, e: Element)
    requires position <= |buffer| && WellFormedElement(e) && OccursAt(buffer, PrintElement(e), position)
    ensures ReadElement(buffer, position) == Got(ElementValue(e), position + |PrintElement(e)|)
  {
    match e {
      case Bulk(payload) => ReadsBulkElement(buffer, position, payload);
      case NilBulk => ReadsNilElement(buffer, position);
      case Inline(line) =>
        FirstUnit(buffer, PrintElement(e), position);
        ReadsLine(buffer, position, line);
    }
  }

  lemma ReadsOneMore(
    buffer: Text, position: nat, parts: seq<Option<Text>>, index: nat, count: nat, value: Option<Text>, next: nat)
    requires index < count && position <= |buffer| && ReadElement(buffer, position) == Got(value, next)
    ensures ReadElements(buffer, position, parts, index, count)
      == ReadElements(buffer, next, parts + [value], index + 1, count)
  {
  }

  /** An element printed here is read, and what was printed after it follows. */
  lemma ReadsFirst(buffer: Text, position: nat, e: Element, others: Text, next: nat)
    requires position <= |buffer| && WellFormedElement(e)
    requires OccursAt(buffer, PrintElement(e) + others, position) && next == position + |PrintElement(e)|
    ensures ReadElement(buffer, position) == Got(ElementValue(e), next)
    ensures OccursAt(buffer, others, next)
  {
    OccursSplit(buffer, PrintElement(e), others, position);
    ReadsElement(buffer, position, e);
  }

  lemma {:induction false} ValuesCons(parts: seq<Option<Text>>, elements: seq<Element>)
    requires |elements| > 0
    ensures parts + [ElementValue(elements[0])] + Values(elements[1..]) == parts + Values(elements)
  {
  }

  lemma {:induction false} ReadsElements(
    buffer: Text, position: nat, parts: seq<Option<Text>>, elements: seq<Element>, index: nat, count: nat,
    all: seq<Option<Text>>, end: nat)
    requires position <= |buffer| && AllWellFormed(elements) && count == index + |elements|
    requires OccursAt(buffer, PrintElements(elements), position) && end == position + |PrintElements(elements)|
    requires all == parts + Values(elements)
    ensures ReadElements(buffer, position, parts, index, count) == Parsed(end, ToFrame(all))
    decreases |elements|
  {
    if |elements| == 0 {
      assert all == parts;
    } else {
      var value, next := ElementValue(elements[0]), position + |PrintElement(elements[0])|;
      ReadsFirst(buffer, position, elements[0], PrintElements(elements[1..]), next);
      ReadsOneMore(buffer, position, parts, index, count, value, next);
      ValuesCons(parts, elements);
      ReadsElements(buffer, next, parts + [value], elements[1..], index + 1, count, all, end);
    }
  }

  lemma OccursFirst(a: Text, b: Text, c: Text)
    ensures OccursAt(a + b + c, a, 0) && OccursAt(a + b + c, b, |a|)
  {
    assert (a + b + c)[0..|a|] == a;
    assert (a + b + c)[|a|..|a| + |b|] == b;
  }

  lemma {:induction false} ParsesArray(buffer: Text, elements: seq<Element>, header: Text)
    requires AllWellFormed(elements) && OneLine(header) && |header| > 0 && header[0] == STAR
    requires ToInteger(header[1..]) == Some(|elements|)
    requires OccursAt(buffer, header + CRLF, 0) && OccursAt(buffer, PrintElements(elements), |header| + 2)
    ensures ParsePushFrame(buffer) == Parsed(|header| + 2 + |PrintElements(elements)|, ToFrame(Values(elements)))
  {
    hide ReadElements, ReadLine, IndexOf, ToInteger, ToFrame, Values;
    ReadsLine(buffer, 0, header);
    ReadsElements(buffer, |header| + 2, [], elements, 0, |elements|, Values(elements),
      |header| + 2 + |PrintElements(elements)|);
  }

  lemma {:induction false} ParsesPrintedArray(elements: seq<Element>, rest: Text, header: Text)
    requires AllWellFormed(elements) && OneLine(header) && |header| > 0 && header[0] == STAR
    requires ToInteger(header[1..]) == Some(|elements|)
    ensures ParsePushFrame(header + CRLF + PrintElements(elements) + rest)
      == Parsed(|header + CRLF + PrintElements(elements)|, ToFrame(Values(elements)))
  {
    OccursFirst(header + CRLF, PrintElements(elements), rest);
    ParsesArray(header + CRLF + PrintElements(elements) + rest, elements, header);
  }

  lemma {:induction false} ValuesAt(elements: seq<Element>, i: nat)
    requires i < |elements|
    ensures |Values(elements)| == |elements| && Values(elements)[i] == ElementValue(elements[i])
    decreases |elements|
  {
    if |elements| > 1 {
      ValuesAt(elements[1..], if i > 0 then i - 1 else 0);
    }
  }

  lemma {:induction false} ArrayReadAs(elements: seq<Element>)
    ensures ReadAs(Array(elements), ToFrame(Values(elements)))
  {
    if |elements| > 0 {
      ValuesAt(elements, 0);
    }
    if |elements| > 1 {
      ValuesAt(elements, 1);
    }
    if |elements| > 2 {
      ValuesAt(elements, 2);
    }
  }

  /** A printed frame followed by anything is read as exactly that frame. */
  lemma ParsesPrintedFrame(f: Frame, rest: Text)
    requires WellFormed(f)
    ensures var p := ParsePushFrame(Print(f) + rest);
      p.Parsed? && p.consumed == |Print(f)| && ReadAs(f, p.frame)
  {
    match f {
      case Line(line) =>
        assert (line + CRLF + rest)[0..|line| + 2] == line + CRLF;
        ReadsLine(line + CRLF + rest, 0, line);
      case NullArray =>
        var header := [STAR] + PrintInt(-1);
        CountLine(STAR, -1);
        assert (header + CRLF + rest)[0..|header| + 2] == header + CRLF;
        ReadsLine(header + CRLF + rest, 0, header);
        assert header[1..] == PrintInt(-1);
      case Array(elements) =>
        var header := [STAR] + PrintInt(|elements|);
        CountLine(STAR, |elements|);
        assert header[1..] == PrintInt(|elements|);
        ParsesPrintedArray(elements, rest, header);
        ArrayReadAs(elements);
    }
  }

  // ---- What the server says ---------------------------------------------------------------------

  const COLON: Unit := 0x3A

  /** A message published on a channel, a confirmed (un)subscription with the number of channels
      left, or any other frame. */
  datatype Said = Publishes(channel: Text, payload: Text) | Confirms(event: Text, channel: Text, count: nat) | Says(frame: Frame)

  function Wire(said: Said): Frame {
    match said
    case Publishes(channel, payload) => Array([Bulk(MESSAGE), Bulk(channel), Bulk(payload)])
    case Confirms(event, channel, count) => Array([Bulk(event), Bulk(channel), Inline([COLON] + PrintInt(count))])
    case Says(frame) => frame
  }

  predicate Plain(said: Said) {
    match said
    case Publishes(_, _) => true
    case Confirms(event, _, _) => event in {SUBSCRIBE, UNSUBSCRIBE}
    case Says(frame) => WellFormed(frame) && !IsMessage(frame) && !IsConfirmation(frame)
  }

  lemma ColonLine(n: int)
    ensures OneLine([COLON] + PrintInt(n))
  {
    var line := [COLON] + PrintInt(n);
    PrintIntOneLine(n);
    OneLineUnits(PrintInt(n));
    forall i, j | 0 <= i && j == i + 1 && j < |line|
      ensures !(line[i] == CR && line[j] == LF)
    {
      if i > 0 {
        assert line[i] == PrintInt(n)[i - 1] && line[j] == PrintInt(n)[j - 1];
      }
    }
    OneLineUnits(line);
  }

  lemma WireWellFormed(said: Said)
    requires Plain(said)
    ensures WellFormed(Wire(said))
  {
    if said.Confirms? {
      ColonLine(said.count);
    }
  }

  /** Whatever follows: a published message is read with its channel and its payload, byte for byte;
      a confirmation with its event, its channel and its count; and anything else as neither. */
  lemma ReadsWhatIsSaid(said: Said, rest: Text)
    requires Plain(said)
    ensures ParsePushFrame(Print(Wire(said)) + rest) == Parsed(|Print(Wire(said))|,
      match said
      case Publishes(channel, payload) => Message(channel, payload)
      case Confirms(event, channel, count) => Subscription(event, channel, Some(count))
      case Says(_) => Other)
  {
    WireWellFormed(said);
    ParsesPrintedFrame(Wire(said), rest);
    EventsDiffer();
    if said.Confirms? {
      ToIntegerOfPrint(said.count);
      assert WithoutMarker([COLON] + PrintInt(said.count)) == PrintInt(said.count);
    }
  }

  lemma EventsDiffer()
    ensures |MESSAGE| == 7 && |SUBSCRIBE| == 9 && |UNSUBSCRIBE| == 11
  {
  }

  // ---- Stability: a decision never changes when more input arrives ----------------------------

  lemma ReadLineStable(buffer: Text, more: Text, position: nat)
    requires position <= |buffer| && ReadLine(buffer, position).Got?
    ensures ReadLine(buffer + more, position) == ReadLine(buffer, position)
  {
    IndexOfStable(buffer, more, CRLF, position);
    var end := IndexOf(buffer, CRLF, position);
    assert (buffer + more)[position..end] == buffer[position..end];
  }

  /** More input can only complete a surrogate pair at the very end of the buffer, and then the
      walk had not left room for the closing line break. */
  lemma {:induction false} WalkStable(buffer: Text, more: Text, index: nat, bytes: nat, byteLength: nat)
    requires index <= |buffer|
    ensures var w, w' := Walk(buffer, index, bytes, byteLength), Walk(buffer + more, index, bytes, byteLength);
      && (w.bytes > byteLength ==> w'.bytes > byteLength)
      && (w.bytes == byteLength && w.index + 2 <= |buffer| ==> w' == w)
    decreases |buffer| - index
  {
    if index < |buffer| && bytes < byteLength {
      assert (buffer + more)[index] == buffer[index];
      if index + 1 < |buffer| {
        assert (buffer + more)[index + 1] == buffer[index + 1];
        WalkStable(buffer, more, index + CodePointUnits(buffer, index),
          bytes + Utf8Length(CodePointAt(buffer, index)), byteLength);
      } else {
        LastUnit(buffer, more, index, bytes, byteLength);
      }
    }
  }

  /** The last unit of the buffer measures at most as much as the code point it may begin. */
  lemma {:induction false} LastUnit(buffer: Text, more: Text, index: nat, bytes: nat, byteLength: nat)
    requires index + 1 == |buffer| && bytes < byteLength
    ensures Walk(buffer, index, bytes, byteLength)
      == Walked(|buffer|, bytes + Utf8Length(CodePointAt(buffer, index)))
    ensures bytes + Utf8Length(CodePointAt(buffer, index)) <= Walk(buffer + more, index, bytes, byteLength).bytes
  {
    assert (buffer + more)[index] == buffer[index];
    var wide := buffer + more;
    assert Utf8Length(CodePointAt(buffer, index)) <= Utf8Length(CodePointAt(wide, index));
    assert Walk(wide, index, bytes, byteLength)
      == Walk(wide, index + CodePointUnits(wide, index), bytes + Utf8Length(CodePointAt(wide, index)), byteLength);
  }

  lemma ReadElementStable(buffer: Text, more: Text, position: nat)
    requires position <= |buffer| && !ReadElement(buffer, position).Short?
    ensures ReadElement(buffer + more, position) == ReadElement(buffer, position)
  {
    ReadLineStable(buffer, more, position);
    assert (buffer + more)[position] == buffer[position];
    if buffer[position] == DOLLAR {
      var line := ReadLine(buffer, position);
      match ToInteger(WithoutMarker(line.value.value)) {
        case None =>
        case Some(byteLength) =>
          if byteLength >= 0 {
            WalkStable(buffer, more, line.next, 0, byteLength);
            var w := Walk(buffer, line.next, 0, byteLength);
            assert (buffer + more)[line.next..w.index] == buffer[line.next..w.index];
          }
      }
    }
  }

  lemma {:induction false} ReadElementsStable(
    buffer: Text, more: Text, position: nat, parts: seq<Option<Text>>, index: nat, count: nat)
    requires position <= |buffer| && ReadElements(buffer, position, parts, index, count) != Incomplete
    ensures ReadElements(buffer + more, position, parts, index, count)
      == ReadElements(buffer, position, parts, index, count)
    decreases count - index
  {
    if index < count {
      ReadElementStable(buffer, more, position);
      var r := ReadElement(buffer, position);
      if r.Got? {
        ReadElementsStable(buffer, more, r.next, parts + [r.value], index + 1, count);
      }
    }
  }

  /** For every buffer, well-formed or not: once the parser decided, frame or error, it
      decides the same however much more has arrived. */
  lemma ParseStable(buffer: Text, more: Text)
    requires ParsePushFrame(buffer) != Incomplete
    ensures ParsePushFrame(buffer + more) == ParsePushFrame(buffer)
  {
    ReadLineStable(buffer, more, 0);
    var header := ReadLine(buffer, 0);
    var line := header.value.value;
    if |line| > 0 && line[0] == STAR {
      match ToInteger(line[1..]) {
        case None =>
        case Some(count) =>
          if count >= 0 {
            ReadElementsStable(buffer, more, header.next, [], 0, count);
          }
      }
    }
  }

  /** Every proper prefix of a frame is incomplete, wherever the cut falls. */
  lemma ProperPrefixIncomplete(f: Frame, cut: nat)
    requires WellFormed(f) && cut < |Print(f)|
    ensures ParsePushFrame(Print(f)[..cut]) == Incomplete
  {
    var head, tail := Print(f)[..cut], Print(f)[cut..];
    assert head + tail == Print(f) == Print(f) + [];
    ParsesPrintedFrame(f, []);
    if ParsePushFrame(head) != Incomplete {
      ParseStable(head, tail);
      assert false;
    }
  }

  // ---- The consumer loop over a cut stream ------------------------------------------------------

  /** The subscriber's `consume`, as the socket's loop sees it. */
  function Consume(buffer: Text): Answer {
    match ParsePushFrame(buffer)
    case Incomplete => Took(-1)
    case Invalid => Threw
    case Parsed(consumed, _) => Took(consumed)
  }

  /** The frames the subscriber acted on: one for each piece it took. */
  function FramesOf(pieces: seq<Text>): seq<PushFrame> {
    if |pieces| == 0 then []
    else
      (match ParsePushFrame(pieces[0]) case Parsed(_, frame) => [frame] case _ => []) + FramesOf(pieces[1..])
  }

  lemma ConsumeStable()
    ensures Stable(Consume)
  {
    forall buffer: Text, more: Text {:trigger Consume(buffer + more)} | !Waits(Consume(buffer))
      ensures Consume(buffer + more) == Consume(buffer)
      ensures Consume(buffer).Took? ==> Consume(buffer).length <= |buffer|
    {
      ParseStable(buffer, more);
    }
  }

  function PrintAll(frames: seq<Frame>): Text {
    if |frames| == 0 then [] else Print(frames[0]) + PrintAll(frames[1..])
  }

  /** Each frame is read as what it means, in the same order. */
  predicate AllReadAs(frames: seq<Frame>, read: seq<PushFrame>) {
    |read| == |frames| && forall i :: 0 <= i < |frames| ==> ReadAs(frames[i], read[i])
  }

  function Printed(frames: seq<Frame>): seq<Text> {
    if |frames| == 0 then [] else [Print(frames[0])] + Printed(frames[1..])
  }

  predicate AllFramesWellFormed(frames: seq<Frame>) {
    forall i :: 0 <= i < |frames| ==> WellFormed(frames[i])
  }

  /** Everything at once: the frames, then the start of the next one stays in the buffer. */
  lemma {:induction false} DrainsFrames(frames: seq<Frame>, next: Frame, cut: nat)
    requires AllFramesWellFormed(frames) && WellFormed(next) && cut < |Print(next)|
    ensures Drain(Consume, PrintAll(frames) + Print(next)[..cut])
      == Drained(Printed(frames), Print(next)[..cut], false)
    decreases |frames|
  {
    var partial := Print(next)[..cut];
    if |frames| == 0 {
      assert PrintAll(frames) + partial == partial;
      ProperPrefixIncomplete(next, cut);
    } else {
      DrainsFrames(frames[1..], next, cut);
      DrainsOneFrame(frames[0], PrintAll(frames[1..]) + partial);
      Reassociate(Print(frames[0]), PrintAll(frames[1..]), partial);
    }
  }

  lemma {:induction false} DrainsOneFrame(f: Frame, others: Text)
    requires WellFormed(f)
    ensures Drain(Consume, Print(f) + others)
      == Drain(Consume, others).(pieces := [Print(f)] + Drain(Consume, others).pieces)
  {
    ParsesPrintedFrame(f, others);
    DrainStep(Consume, Print(f), others);
  }

  lemma Reassociate(a: Text, b: Text, c: Text)
    ensures a + b + c == a + (b + c)
  {
  }

  lemma {:induction false} FramesOfPrinted(frames: seq<Frame>)
    requires AllFramesWellFormed(frames)
    ensures AllReadAs(frames, FramesOf(Printed(frames)))
    decreases |frames|
  {
    if |frames| > 0 {
      ParsesPrintedFrame(frames[0], []);
      assert Print(frames[0]) + [] == Print(frames[0]);
      assert Printed(frames)[1..] == Printed(frames[1..]);
      FramesOfPrinted(frames[1..]);
    }
  }

  /** For every cut of a stream of frames, ending anywhere inside the frame after them, the
      subscriber has acted on exactly those frames, in order, and holds the partial one. */
  lemma {:induction false} DeliversFramesForEveryCut(frames: seq<Frame>, next: Frame, cut: nat, chunks: seq<Text>)
    requires AllFramesWellFormed(frames) && WellFormed(next) && cut < |Print(next)|
    requires Concat(chunks) == PrintAll(frames) + Print(next)[..cut]
    ensures var fed := Feed(Consume, [], chunks);
      AllReadAs(frames, FramesOf(fed.pieces)) && fed.rest == Print(next)[..cut] && !fed.threw
  {
    ConsumeStable();
    DrainsFrames(frames, next, cut);
    assert [] + Concat(chunks) == Concat(chunks);
    FeedIsDrain(Consume, [], chunks);
    FramesOfPrinted(frames);
  }

  /** What the subscriber's listener is called with. */
  datatype Delivery = Delivery(channel: Text, message: Text)

  function Deliveries(frames: seq<PushFrame>): seq<Delivery> {
    if |frames| == 0 then []
    else (match frames[0] case Message(channel, payload) => [Delivery(channel, payload)] case _ => []) + Deliveries(frames[1..])
  }

  function Publications(said: seq<Said>): seq<Delivery> {
    if |said| == 0 then []
    else (match said[0] case Publishes(channel, payload) => [Delivery(channel, payload)] case _ => []) + Publications(said[1..])
  }

  function WireAll(said: seq<Said>): seq<Frame> {
    if |said| == 0 then [] else [Wire(said[0])] + WireAll(said[1..])
  }

  predicate AllPlain(said: seq<Said>) {
    forall i :: 0 <= i < |said| ==> Plain(said[i])
  }

  lemma {:induction false} DeliversSaid(said: seq<Said>)
    requires AllPlain(said)
    ensures AllFramesWellFormed(WireAll(said)) && Deliveries(FramesOf(Printed(WireAll(said)))) == Publications(said)
    decreases |said|
  {
    if |said| > 0 {
      DeliversSaid(said[1..]);
      WireWellFormed(said[0]);
      ReadsWhatIsSaid(said[0], []);
      assert Print(Wire(said[0])) + [] == Print(Wire(said[0]));
      assert WireAll(said)[1..] == WireAll(said[1..]) && Printed(WireAll(said))[1..] == Printed(WireAll(said[1..]));
      var first, others := ParsePushFrame(Print(Wire(said[0]))).frame, FramesOf(Printed(WireAll(said[1..])));
      assert FramesOf(Printed(WireAll(said))) == [first] + others && ([first] + others)[1..] == others;
    }
  }

  /** For every cut of the stream the listener is called with exactly the messages that were
      published, each with its channel and its payload, in their order, whatever is said between. */
  lemma {:induction false} DeliversWhatIsPublished(said: seq<Said>, next: Frame, cut: nat, chunks: seq<Text>)
    requires AllPlain(said) && WellFormed(next) && cut < |Print(next)|
    requires Concat(chunks) == PrintAll(WireAll(said)) + Print(next)[..cut]
    ensures var fed := Feed(Consume, [], chunks);
      Deliveries(FramesOf(fed.pieces)) == Publications(said) && !fed.threw
  {
    DeliversSaid(said);
    ConsumeStable();
    DrainsFrames(WireAll(said), next, cut);
    assert [] + Concat(chunks) == Concat(chunks);
    FeedIsDrain(Consume, [], chunks);
  }
}
