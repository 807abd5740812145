/** Printing Redis commands (`serializeCommand`) and reading them back on the server's side. */
module Serialize {
  import opened Text

  const MAX_INLINE: nat := 0x1_0000

  /** One unit of a text that may go inline: neither white space, a quote, a backslash nor a
      control character. Every excluded character is a single unit. */
  predicate InlineSafeUnit(u: Unit) {
    !IsWhiteSpace(u) && u != '"' as int && u != '\'' as int && u != '\\' as int
    && !(u < 0x20) && !(0x7F <= u <= 0x9F)
  }

  predicate InlineSafe(part: Text) {
    |part| > 0 && forall i :: 0 <= i < |part| ==> InlineSafeUnit(part[i])
  }

  predicate AllInlineSafe(command: seq<Text>) {
    forall i :: 0 <= i < |command| ==> InlineSafe(command[i])
  }

  function TotalLength(command: seq<Text>): nat {
    if |command| == 0 then 0 else |command[0]| + TotalLength(command[1..])
  }

  predicate GoesInline(command: seq<Text>) {
    TotalLength(command) <= MAX_INLINE && AllInlineSafe(command)
  }

  /** Each part with its byte count in front, as RESP bulk strings. */
  function BulkParts(command: seq<Text>): Text {
    if |command| == 0 then []
    else [DOLLAR] + PrintInt(ByteLength(command[0])) + CRLF + (command[0] + CRLF) + BulkParts(command[1..])
  }

  function SerializeCommand(command: seq<Text>): Text {
    if GoesInline(command) then Join(command, [SPACE])
    else [STAR] + PrintInt(|command|) + CRLF + BulkParts(command)
  }

  /** The lines the source collects before joining them. */
  function BulkLines(command: seq<Text>): seq<Text> {
    if |command| == 0 then []
    else [[DOLLAR] + PrintInt(ByteLength(command[0])), command[0]] + BulkLines(command[1..])
  }

  lemma {:induction false} JoinedLines(first: Text, command: seq<Text>)
    ensures Join([first] + BulkLines(command), CRLF) + CRLF == first + CRLF + BulkParts(command)
    decreases |command|
  {
    var lines := [first] + BulkLines(command);
    if |command| == 0 {
      assert lines == [first];
    } else {
      var size, part, others := [DOLLAR] + PrintInt(ByteLength(command[0])), command[0], BulkLines(command[1..]);
      assert lines[1..] == [size, part] + others;
      assert lines[1..][1..] == [part] + others;
      JoinedLines(part, command[1..]);
      calc {
        Join(lines, CRLF) + CRLF;
        first + CRLF + Join(lines[1..], CRLF) + CRLF;
        first + CRLF + (size + CRLF + Join([part] + others, CRLF)) + CRLF;
        first + CRLF + (size + CRLF + (Join([part] + others, CRLF) + CRLF));
        first + CRLF + (size + CRLF + (part + CRLF + BulkParts(command[1..])));
        { assert size + CRLF + (part + CRLF + BulkParts(command[1..]))
            == size + CRLF + (part + CRLF) + BulkParts(command[1..]); }
        first + CRLF + BulkParts(command);
      }
    }
  }

  lemma {:induction false} BulkLinesSnoc(command: seq<Text>, part: Text)
    ensures BulkLines(command + [part]) == BulkLines(command) + [[DOLLAR] + PrintInt(ByteLength(part)), part]
  {
    if |command| == 0 {
      assert command + [part] == [part];
      assert [part][1..] == [];
    } else {
      assert (command + [part])[1..] == command[1..] + [part];
      BulkLinesSnoc(command[1..], part);
    }
  }

  method Serialized(command: seq<Text>) returns (message: Text)
    ensures message == SerializeCommand(command)
  {
    if GoesInline(command) {
      return Join(command, [SPACE]);
    }
    var lines: seq<Text> := [[STAR] + PrintInt(|command|)];
    for i := 0 to |command|
      invariant lines == [[STAR] + PrintInt(|command|)] + BulkLines(command[..i])
    {
      lines := lines + [[DOLLAR] + PrintInt(ByteLength(command[i]))];
      lines := lines + [command[i]];
      assert command[..i + 1] == command[..i] + [command[i]];
      BulkLinesSnoc(command[..i], command[i]);
    }
    assert command[..|command|] == command;
    JoinedLines([STAR] + PrintInt(|command|), command);
    return Join(lines, CRLF) + CRLF;
  }

  /** What `redisSend` puts on the wire for some commands: each one followed by a line break. */
  function Message(commands: seq<seq<Text>>): Text {
    if |commands| == 0 then [] else SerializeCommand(commands[0]) + CRLF + Message(commands[1..])
  }

  // ---- The server's request reader -------------------------------------------------------------

  /** One request at the head of the input; an empty line asks for nothing. */
  datatype Request = Incomplete | Refused | Nothing(next: nat) | Command(args: seq<Text>, next: nat)

  predicate IsSpace(u: Unit) {
    u == SPACE || 9 <= u <= 13
  }

  predicate IsQuote(u: Unit) {
    u == '"' as int || u == '\'' as int
  }

  /** The end of the token that starts at `i`. */
  function TokenEnd(line: Text, i: nat): (r: nat)
    requires i <= |line|
    ensures i <= r <= |line|
    decreases |line| - i
  {
    if i == |line| || IsSpace(line[i]) then i else TokenEnd(line, i + 1)
  }

  /** The arguments of an inline request. Quoting is not read: a quote refuses the line. */
  function Tokens(line: Text): Option<seq<Text>>
    decreases |line|
  {
    if |line| == 0 then Some([])
    else if IsQuote(line[0]) then None
    else if IsSpace(line[0]) then Tokens(line[1..])
    else
      var end := TokenEnd(line, 1);
      if exists i :: 0 <= i < end && IsQuote(line[i]) then None
      else
        match Tokens(line[end..])
        case None => None
        case Some(others) => Some([line[..end]] + others)
  }

  /** One length-prefixed argument. */
  datatype Arg = Short | Bad | Arg(value: Text, next: nat)

  function ReadArg(input: Text, position: nat): (r: Arg)
    requires position <= |input|
    ensures r.Arg? ==> position < r.next <= |input|
  {
    var end := IndexOf(input, CRLF, position);
    if end < 0 then Short
    else if end == position || input[position] != DOLLAR then Bad
    else
      match SignedDigits(input[position + 1..end])
      case None => Bad
      case Some(n) =>
        if n < 0 then Bad
        else if |input| < end + 2 + n + 2 then Short
        else Arg(input[end + 2..end + 2 + n], end + 2 + n + 2)
  }

  function ReadArgs(input: Text, position: nat, args: seq<Text>, index: nat, count: nat): (r: Request)
    requires position <= |input|
    ensures r.Command? ==> position <= r.next <= |input|
    ensures !r.Nothing?
    decreases count - index
  {
    if index >= count then Command(args, position)
    else
      match ReadArg(input, position)
      case Short => Incomplete
      case Bad => Refused
      case Arg(value, next) => ReadArgs(input, next, args + [value], index + 1, count)
  }

  function ReadRequest(input: Text): (r: Request)
    requires |input| > 0
    ensures r.Nothing? || r.Command? ==> 0 < r.next <= |input|
  {
    if input[0] == STAR then
      var end := IndexOf(input, CRLF, 0);
      if end < 0 then Incomplete
      else
        match SignedDigits(input[1..end])
        case None => Refused
        case Some(n) => if n <= 0 then Nothing(end + 2) else ReadArgs(input, end + 2, [], 0, n)
    else
      var end := IndexOf(input, [LF], 0);
      if end < 0 then Incomplete
      else
        var line := if end > 0 && input[end - 1] == CR then input[..end - 1] else input[..end];
        match Tokens(line)
        case None => Refused
        case Some(args) => if |args| == 0 then Nothing(end + 1) else Command(args, end + 1)
  }

  /** Everything a server reads from its input: the commands, and what it could not use. */
  datatype Served = Served(commands: seq<seq<Text>>, rest: Text, refused: bool)

  function Serve(input: Text): Served
    decreases |input|
  {
    if |input| == 0 then Served([], [], false)
    else
      match ReadRequest(input)
      case Incomplete => Served([], input, false)
      case Refused => Served([], input, true)
      case Nothing(next) => Serve(input[next..])
      case Command(args, next) =>
        var later := Serve(input[next..]);
        later.(commands := [args] + later.commands)
  }

  // ---- What is written --------------------------------------------------------------------------

  function Encoded(command: seq<Text>): seq<Text> {
    if |command| == 0 then [] else [Utf8(command[0])] + Encoded(command[1..])
  }

  function AllEncoded(commands: seq<seq<Text>>): seq<seq<Text>> {
    if |commands| == 0 then [] else [Encoded(commands[0])] + AllEncoded(commands[1..])
  }

  /** One argument with its byte count in front. */
  function Bulk(arg: Text): Text {
    [DOLLAR] + PrintInt(|arg|) + CRLF + (arg + CRLF)
  }

  function BulkForm(args: seq<Text>): Text {
    if |args| == 0 then [] else Bulk(args[0]) + BulkForm(args[1..])
  }

  function ArrayForm(args: seq<Text>): Text {
    [STAR] + PrintInt(|args|) + CRLF + BulkForm(args)
  }

  lemma PrintIntAscii(n: int)
    ensures forall i :: 0 <= i < |PrintInt(n)| ==> PrintInt(n)[i] < 0x80 && PrintInt(n)[i] != LF
    ensures n >= 0 ==> SignedDigits(PrintInt(n)) == Some(n)
  {
    var t := PrintInt(n);
    assert forall i :: 0 <= i < |t| ==> t[i] == MINUS || IsDigit(t[i]);
    if n >= 0 {
      DigitsValueOfPrint(n);
    }
  }

  /** The header of a bulk or of an array is one line, and its number is read back. */
  lemma HeaderLine(marker: Unit, n: nat)
    requires marker in {STAR, DOLLAR}
    ensures OneLine([marker] + PrintInt(n)) && SignedDigits(([marker] + PrintInt(n))[1..]) == Some(n)
  {
    PrintIntAscii(n);
    var line := [marker] + PrintInt(n);
    forall i, j | 0 <= i && j == i + 1 && j < |line|
      ensures !(line[i] == CR && line[j] == LF)
    {
      assert line[j] == PrintInt(n)[i];
    }
    OneLineUnits(line);
    assert line[1..] == PrintInt(n);
  }

  lemma {:induction false} BulkPartsStart(command: seq<Text>)
    ensures |BulkParts(command)| > 0 ==> BulkParts(command)[0] == DOLLAR
  {
  }

  /** After an ASCII unit nothing can be drawn into a surrogate pair. */
  lemma {:induction false} AsciiUnitFirst(u: Unit, t: Text)
    requires u < 0x80
    ensures Utf8([u] + t) == [u] + Utf8(t)
  {
    var whole := [u] + t;
    assert whole[0] == u && CodePointUnits(whole, 0) == 1;
    assert whole[1..] == t;
  }

  lemma {:induction false} AppendAfterAscii(a: Text, b: Text)
    requires forall i :: 0 <= i < |a| ==> a[i] < 0x80
    ensures Utf8(a + b) == a + Utf8(b)
    decreases |a|
  {
    if |a| == 0 {
      assert a + b == b;
      assert a + Utf8(b) == Utf8(b);
    } else {
      assert a + b == [a[0]] + (a[1..] + b);
      AsciiUnitFirst(a[0], a[1..] + b);
      AppendAfterAscii(a[1..], b);
      assert [a[0]] + (a[1..] + Utf8(b)) == a + Utf8(b);
    }
  }

  lemma Regroup(header: Text, part: Text, others: Text)
    ensures header + (part + CRLF) + others == header + (part + (CRLF + others))
  {
  }

  lemma {:induction false} BulkBytes(part: Text, others: Text)
    requires |others| > 0 ==> others[0] == DOLLAR
    ensures Utf8([DOLLAR] + PrintInt(ByteLength(part)) + CRLF + (part + CRLF) + others)
      == Bulk(Utf8(part)) + Utf8(others)
  {
    var header := [DOLLAR] + PrintInt(ByteLength(part)) + CRLF;
    PrintIntAscii(ByteLength(part));
    SizedBytes(header, part, others);
    Regroup(header, Utf8(part), Utf8(others));
  }

  lemma {:induction false} SizedBytes(header: Text, part: Text, others: Text)
    requires forall i :: 0 <= i < |header| ==> header[i] < 0x80
    ensures Utf8(header + (part + CRLF) + others) == header + (Utf8(part) + (CRLF + Utf8(others)))
  {
    Regroup(header, part, others);
    AppendAfterAscii(header, part + (CRLF + others));
    Utf8Append(part, CRLF + others);
    AppendAfterAscii(CRLF, others);
  }

  lemma {:induction false} BulkPartsBytes(command: seq<Text>)
    ensures Utf8(BulkParts(command)) == BulkForm(Encoded(command))
    decreases |command|
  {
    if |command| > 0 {
      BulkPartsBytes(command[1..]);
      BulkPartsStart(command[1..]);
      BulkBytes(command[0], BulkParts(command[1..]));
      assert Encoded(command)[1..] == Encoded(command[1..]);
    }
  }

  // ---- Reading back ---------------------------------------------------------------------------------

  lemma FirstUnit(buffer: Text, t: Text, at: int)
    requires OccursAt(buffer, t, at) && |t| > 0
    ensures buffer[at] == t[0] && buffer[at + 1..at + |t|] == t[1..]
  {
    assert t[0] == buffer[at..at + |t|][0];
    assert t[1..] == buffer[at..at + |t|][1..];
  }

  lemma ReadsSizedArg(input: Text, position: nat, header: Text, arg: Text)
    requires OneLine(header) && |header| > 0 && header[0] == DOLLAR
    requires SignedDigits(header[1..]) == Some(|arg|)
    requires OccursAt(input, header + CRLF, position)
    requires OccursAt(input, arg + CRLF, position + |header| + 2)
    ensures ReadArg(input, position) == Arg(arg, position + |header| + 2 + |arg| + 2)
  {
    IndexOfLineEnd(input, position, header);
    OccursSplit(input, header, CRLF, position);
    FirstUnit(input, header, position);
    OccursSplit(input, arg, CRLF, position + |header| + 2);
  }

  lemma ReadsOneArg(input: Text, position: nat, arg: Text)
    requires OccursAt(input, Bulk(arg), position)
    ensures ReadArg(input, position) == Arg(arg, position + |Bulk(arg)|)
  {
    var header := [DOLLAR] + PrintInt(|arg|);
    HeaderLine(DOLLAR, |arg|);
    OccursSplit(input, header + CRLF, arg + CRLF, position);
    ReadsSizedArg(input, position, header, arg);
  }

  lemma ReadsOneMore(input: Text, position: nat, read: seq<Text>, index: nat, count: nat, arg: Text, next: nat)
    requires index < count && position <= |input| && ReadArg(input, position) == Arg(arg, next)
    ensures ReadArgs(input, position, read, index, count) == ReadArgs(input, next, read + [arg], index + 1, count)
  {
  }

  /** An argument printed here is read, and what was printed after it follows. */
  lemma ReadsFirstArg(input: Text, position: nat, arg: Text, others: Text, next: nat)
    requires OccursAt(input, Bulk(arg) + others, position) && next == position + |Bulk(arg)|
    ensures ReadArg(input, position) == Arg(arg, next) && OccursAt(input, others, next)
  {
    OccursSplit(input, Bulk(arg), others, position);
    ReadsOneArg(input, position, arg);
  }

  lemma {:induction false} ReadsArgs(
    input: Text, position: nat, args: seq<Text>, read: seq<Text>, index: nat, count: nat, all: seq<Text>, end: nat)
    requires position <= |input| && count == index + |args| && all == read + args
    requires OccursAt(input, BulkForm(args), position) && end == position + |BulkForm(args)|
    ensures ReadArgs(input, position, read, index, count) == Command(all, end)
    decreases |args|
  {
    if |args| == 0 {
      assert all == read;
    } else {
      var next := position + |Bulk(args[0])|;
      ReadsFirstArg(input, position, args[0], BulkForm(args[1..]), next);
      ReadsOneMore(input, position, read, index, count, args[0], next);
      assert read + [args[0]] + args[1..] == read + args;
      ReadsArgs(input, next, args[1..], read + [args[0]], index + 1, count, all, end);
    }
  }

  lemma OccursFirst(a: Text, b: Text, c: Text)
    ensures OccursAt(a + b + c, a, 0) && OccursAt(a + b + c, b, |a|)
  {
    assert (a + b + c)[0..|a|] == a;
    assert (a + b + c)[|a|..|a| + |b|] == b;
  }

  lemma {:induction false} ReadsArrayAt(input: Text, args: seq<Text>, header: Text)
    requires |args| > 0 && OneLine(header) && |header| > 0 && header[0] == STAR
    requires SignedDigits(header[1..]) == Some(|args|)
    requires OccursAt(input, header + CRLF, 0) && OccursAt(input, BulkForm(args), |header| + 2)
    ensures ReadRequest(input) == Command(args, |header| + 2 + |BulkForm(args)|)
  {
    IndexOfLineEnd(input, 0, header);
    OccursSplit(input, header, CRLF, 0);
    FirstUnit(input, header, 0);
    ReadsArgs(input, |header| + 2, args, [], 0, |args|, args, |header| + 2 + |BulkForm(args)|);
    assert [] + args == args;
  }

  lemma {:induction false} ReadsArray(args: seq<Text>, rest: Text, header: Text)
    requires |args| > 0 && OneLine(header) && |header| > 0 && header[0] == STAR
    requires SignedDigits(header[1..]) == Some(|args|)
    ensures ReadRequest(header + CRLF + BulkForm(args) + rest)
      == Command(args, |header| + 2 + |BulkForm(args)|)
  {
    OccursFirst(header + CRLF, BulkForm(args), rest);
    ReadsArrayAt(header + CRLF + BulkForm(args) + rest, args, header);
  }

  /** A length-prefixed command is read back, and the line break after it asks for nothing. */
  lemma {:induction false} ServesArrayForm(args: seq<Text>, rest: Text)
    requires |args| > 0
    ensures Serve(ArrayForm(args) + CRLF + rest) == Serve(rest).(commands := [args] + Serve(rest).commands)
  {
    var wire := ArrayForm(args);
    HeaderLine(STAR, |args|);
    ReadsArray(args, CRLF + rest, [STAR] + PrintInt(|args|));
    var input := wire + (CRLF + rest);
    assert wire + CRLF + rest == input;
    assert input[|wire|..] == CRLF + rest;
    SkipsEmptyLine(rest);
  }

  lemma {:induction false} SkipsEmptyLine(rest: Text)
    ensures Serve(CRLF + rest) == Serve(rest)
  {
    var input := CRLF + rest;
    assert input[0] == CR && input[1] == LF;
    assert input[0..1] == [CR] && input[1..2] == [LF];
    assert IndexOf(input, [LF], 0) == IndexOf(input, [LF], 1) == 1;
    assert input[..0] == [];
    assert input[2..] == rest;
  }

  /** Bytes that can be an inline token: neither white space nor quotes. */
  predicate Plain(token: Text) {
    |token| > 0 && forall i :: 0 <= i < |token| ==> !IsSpace(token[i]) && !IsQuote(token[i])
  }

  lemma {:induction false} PlainBytes(part: Text)
    requires InlineSafe(part)
    ensures Plain(Utf8(part)) && (Utf8(part)[0] == STAR <==> part[0] == STAR)
  {
    var b := Utf8(part);
    forall i | 0 <= i < |b|
      ensures !IsSpace(b[i]) && !IsQuote(b[i])
    {
      if b[i] < 0x80 {
        AsciiByteIsUnit(part, i);
      }
    }
    assert b[0] == Utf8Bytes(CodePointAt(part, 0))[0];
  }

  predicate AllPlain(tokens: seq<Text>) {
    forall i :: 0 <= i < |tokens| ==> Plain(tokens[i])
  }

  lemma {:induction false} TokenEndsAt(line: Text, i: nat, end: nat)
    requires i <= end <= |line|
    requires forall k :: i <= k < end ==> !IsSpace(line[k])
    requires end == |line| || IsSpace(line[end])
    ensures TokenEnd(line, i) == end
    decreases end - i
  {
    if i < end {
      TokenEndsAt(line, i + 1, end);
    }
  }

  lemma {:induction false} TokensOfJoin(tokens: seq<Text>)
    requires AllPlain(tokens)
    ensures Tokens(Join(tokens, [SPACE])) == Some(tokens)
    decreases |tokens|
  {
    if |tokens| > 0 {
      var line, first := Join(tokens, [SPACE]), tokens[0];
      assert line[..|first|] == first;
      assert forall k :: 0 <= k < |first| ==> line[k] == first[k];
      if |tokens| == 1 {
        TokenEndsAt(line, 1, |first|);
        assert line[|first|..] == [];
      } else {
        var others := Join(tokens[1..], [SPACE]);
        assert line[|first|] == SPACE;
        TokenEndsAt(line, 1, |first|);
        assert line[|first|..][1..] == others;
        TokensOfJoin(tokens[1..]);
        assert Tokens(line[|first|..]) == Tokens(others);
      }
      assert [first] + tokens[1..] == tokens;
    }
  }

  lemma {:induction false} NoBreakInJoin(tokens: seq<Text>)
    requires AllPlain(tokens)
    ensures forall i :: 0 <= i < |Join(tokens, [SPACE])| ==> Join(tokens, [SPACE])[i] !in {CR, LF}
    decreases |tokens|
  {
    if |tokens| > 1 {
      NoBreakInJoin(tokens[1..]);
    }
  }

  lemma {:induction false} FindsLineFeed(input: Text, start: nat, end: nat)
    requires start <= end < |input| && input[end] == LF
    requires forall k :: start <= k < end ==> input[k] != LF
    ensures IndexOf(input, [LF], start) == end
    decreases end - start
  {
    assert input[start..start + 1] == [input[start]];
    if start < end {
      FindsLineFeed(input, start + 1, end);
    }
  }

  lemma {:induction false} SpacedBytes(part: Text, others: Text)
    ensures Utf8(part + [SPACE] + others) == Utf8(part) + [SPACE] + Utf8(others)
  {
    assert part + [SPACE] + others == part + ([SPACE] + others);
    Utf8Append(part, [SPACE] + others);
    AsciiUnitFirst(SPACE, others);
    assert Utf8(part) + ([SPACE] + Utf8(others)) == Utf8(part) + [SPACE] + Utf8(others);
  }

  lemma {:induction false} PlainParts(command: seq<Text>)
    requires AllInlineSafe(command)
    ensures AllPlain(Encoded(command)) && |Encoded(command)| == |command|
    decreases |command|
  {
    if |command| > 0 {
      PlainBytes(command[0]);
      PlainParts(command[1..]);
    }
  }

  lemma {:induction false} JoinBytes(command: seq<Text>)
    ensures Utf8(Join(command, [SPACE])) == Join(Encoded(command), [SPACE])
    decreases |command|
  {
    EncodedLength(command);
    if |command| > 1 {
      JoinBytes(command[1..]);
      SpacedBytes(command[0], Join(command[1..], [SPACE]));
      assert Encoded(command)[1..] == Encoded(command[1..]);
    }
  }

  lemma {:induction false} InlineLine(tokens: seq<Text>, rest: Text)
    requires |tokens| > 0 && AllPlain(tokens) && tokens[0][0] != STAR
    ensures var line := Join(tokens, [SPACE]);
      ReadRequest(line + CRLF + rest) == Command(tokens, |line| + 2)
  {
    var line := Join(tokens, [SPACE]);
    var input := line + CRLF + rest;
    assert line[0] == tokens[0][0];
    NoBreakInJoin(tokens);
    assert forall k :: 0 <= k < |line| ==> input[k] == line[k];
    assert input[|line|] == CR && input[|line| + 1] == LF;
    FindsLineFeed(input, 0, |line| + 1);
    assert input[..|line|] == line;
    TokensOfJoin(tokens);
  }

  /** An inline line whose first token does not start with a star is read back. */
  lemma {:induction false} ServesInline(tokens: seq<Text>, rest: Text)
    requires |tokens| > 0 && AllPlain(tokens) && tokens[0][0] != STAR
    ensures Serve(Join(tokens, [SPACE]) + CRLF + rest) == Serve(rest).(commands := [tokens] + Serve(rest).commands)
  {
    var line := Join(tokens, [SPACE]);
    InlineLine(tokens, rest);
    assert (line + CRLF + rest)[|line| + 2..] == rest;
  }

  /** The one family of commands that is not read back: an inline form that begins with a star
      looks like an array header. Nothing is printed at all for a command without parts. */
  predicate ReadsAsArray(command: seq<Text>) {
    GoesInline(command) && |command| > 0 && command[0][0] == STAR
  }

  /** The bytes a command is printed to. */
  lemma {:induction false} CommandBytes(command: seq<Text>)
    requires |command| > 0
    ensures GoesInline(command) ==> Utf8(SerializeCommand(command)) == Join(Encoded(command), [SPACE])
    ensures !GoesInline(command) ==> Utf8(SerializeCommand(command)) == ArrayForm(Encoded(command))
    ensures |Encoded(command)| == |command| && Encoded(command)[0] == Utf8(command[0])
  {
    EncodedLength(command);
    if GoesInline(command) {
      JoinBytes(command);
    } else {
      PrintIntAscii(|command|);
      AppendAfterAscii([STAR] + PrintInt(|command|) + CRLF, BulkParts(command));
      BulkPartsBytes(command);
    }
  }

  lemma {:induction false} EncodedLength(command: seq<Text>)
    ensures |Encoded(command)| == |command|
    decreases |command|
  {
    if |command| > 0 {
      EncodedLength(command[1..]);
    }
  }

  lemma {:induction false} MessageBytes(text: Text, more: Text)
    ensures Utf8(text + CRLF + more) == Utf8(text) + CRLF + Utf8(more)
  {
    assert text + CRLF + more == text + (CRLF + more);
    Utf8Append(text, CRLF + more);
    AppendAfterAscii(CRLF, more);
    assert Utf8(text) + (CRLF + Utf8(more)) == Utf8(text) + CRLF + Utf8(more);
  }

  /** One command in front of others is one more command served. */
  lemma {:induction false} ServesCommand(command: seq<Text>, more: Text)
    requires |command| > 0 && !ReadsAsArray(command)
    ensures var served := Serve(Utf8(more));
      Serve(Utf8(SerializeCommand(command) + CRLF + more))
        == served.(commands := [Encoded(command)] + served.commands)
  {
    MessageBytes(SerializeCommand(command), more);
    CommandBytes(command);
    if GoesInline(command) {
      PlainParts(command);
      PlainBytes(command[0]);
      ServesInline(Encoded(command), Utf8(more));
    } else {
      ServesArrayForm(Encoded(command), Utf8(more));
    }
  }

  /** A stream of commands in any mix of the two forms is read back as the same argument lists,
      with multi-byte arguments intact and nothing left over. */
  lemma {:induction false} StreamIsReadBack(commands: seq<seq<Text>>)
    requires forall i :: 0 <= i < |commands| ==> |commands[i]| > 0 && !ReadsAsArray(commands[i])
    ensures Serve(Utf8(Message(commands))) == Served(AllEncoded(commands), [], false)
    decreases |commands|
  {
    if |commands| > 0 {
      StreamIsReadBack(commands[1..]);
      ServesCommand(commands[0], Message(commands[1..]));
    }
  }

  /** The exception is exact: a single command is read back if and only if it has a part and
      its printed form does not begin like an array header. */
  lemma {:induction false} ReadBackIff(command: seq<Text>)
    ensures Serve(Utf8(Message([command]))) == Served([Encoded(command)], [], false)
      <==> |command| > 0 && !ReadsAsArray(command)
  {
    if |command| == 0 {
      NothingPrinted(command);
    } else if ReadsAsArray(command) {
      StarLineIsNoCommand(command);
    } else {
      OneCommand(command);
    }
  }

  lemma {:induction false} OneCommand(command: seq<Text>)
    requires |command| > 0 && !ReadsAsArray(command)
    ensures Serve(Utf8(Message([command]))) == Served([Encoded(command)], [], false)
  {
    StreamIsReadBack([command]);
    assert [command][1..] == [];
    assert AllEncoded([command]) == [Encoded(command)];
  }

  lemma NothingPrinted(command: seq<Text>)
    requires |command| == 0
    ensures Serve(Utf8(Message([command]))).commands == []
  {
    assert [command][1..] == [];
    assert Message([command]) == CRLF;
    Utf8Ascii(CRLF);
    SkipsEmptyLine([]);
    assert CRLF + [] == CRLF;
  }

  lemma StarLineIsNoCommand(command: seq<Text>)
    requires ReadsAsArray(command)
    ensures Serve(Utf8(Message([command]))).commands == []
  {
    assert [command][1..] == [];
    MessageBytes(SerializeCommand(command), []);
    CommandBytes(command);
    PlainParts(command);
    PlainBytes(command[0]);
    NoBreakInJoin(Encoded(command));
    var line := Join(Encoded(command), [SPACE]);
    OneLineUnits(line);
    assert Utf8(SerializeCommand(command)) + CRLF + Utf8([]) == line + CRLF;
    StarLineServesNothing(line);
  }

  lemma {:induction false} StarLineServesNothing(line: Text)
    requires OneLine(line) && |line| > 0 && line[0] == STAR
    ensures Serve(line + CRLF).commands == []
  {
    var input := line + CRLF;
    assert input[0..|line| + 2] == line + CRLF;
    IndexOfLineEnd(input, 0, line);
    match SignedDigits(input[1..|line|]) {
      case None =>
      case Some(n) =>
        if n <= 0 {
          assert input[|line| + 2..] == [];
        } else {
          assert IndexOf(input, CRLF, |line| + 2) == -1;
        }
    }
  }
}
