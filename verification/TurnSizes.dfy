/** How many bytes a log takes, whole and cut into parts. */
module TurnSizes {
  import opened Text
  import opened CanonicalJson
  import opened Pieces
  import opened TurnLog
  import opened TurnSteps
  import opened TurnRuns

  // ---- Texts -----------------------------------------------------------------------------------

  lemma {:induction false} BytesAppend(a: Text, b: Text)
    requires |b| == 0 || !IsLow(b[0])
    ensures ByteLength(a + b) == ByteLength(a) + ByteLength(b)
  {
    Utf8Append(a, b);
    assert |Utf8(a + b)| == ByteLength(a + b) && |Utf8(a)| == ByteLength(a) && |Utf8(b)| == ByteLength(b);
  }

  lemma {:induction false} BytesAtLeastUnits(t: Text)
    ensures ByteLength(t) >= |t|
    decreases |t|
  {
    if |t| > 0 {
      BytesAtLeastUnits(t[CodePointUnits(t, 0)..]);
    }
  }

  function BytesOf(texts: seq<Text>): nat {
    if |texts| == 0 then 0 else ByteLength(texts[0]) + BytesOf(texts[1..])
  }

  predicate Braced(t: Text) {
    |t| > 0 && t[0] == '{' as int
  }

  lemma {:induction false} JoinedBytes(texts: seq<Text>)
    requires |texts| > 0 && forall i :: 0 <= i < |texts| ==> Braced(texts[i])
    ensures Braced(Join(texts, [COMMA])) && ByteLength(Join(texts, [COMMA])) == BytesOf(texts) + |texts| - 1
    decreases |texts|
  {
    if |texts| == 1 {
      assert texts[1..] == [];
      assert BytesOf(texts[1..]) == 0;
    } else {
      JoinedBytes(texts[1..]);
      var rest := Join(texts[1..], [COMMA]);
      assert ByteLength([COMMA]) == 1 by {
        assert [COMMA][1..] == [];
        assert ByteLength([COMMA][1..]) == 0;
      }
      BytesAppend(texts[0], [COMMA]);
      BytesAppend(texts[0] + [COMMA], rest);
    }
  }

  // ---- Records ------------------------------------------------------------------------------------

  function RecordText(r: TurnRecord): Text {
    Print(Normalize(RecordJson(r)))
  }

  function Weight(log: seq<TurnRecord>): nat {
    if |log| == 0 then 0 else ByteLength(RecordText(log[0])) + Weight(log[1..])
  }

  lemma {:induction false} WeightAppend(a: seq<TurnRecord>, b: seq<TurnRecord>)
    ensures Weight(a + b) == Weight(a) + Weight(b)
    decreases |a|
  {
    if |a| == 0 {
      assert a + b == b;
    } else {
      assert (a + b)[1..] == a[1..] + b;
      WeightAppend(a[1..], b);
    }
  }

  /** Printable ASCII. */
  predicate Plain(t: Text) {
    forall i :: 0 <= i < |t| ==> 0x20 <= t[i] < 0x80
  }

  lemma {:induction false} PlainPaired(t: Text, i: nat)
    requires Plain(t)
    ensures PairedFrom(t, i)
    decreases |t| - i
  {
    if i < |t| {
      PlainPaired(t, i + 1);
    }
  }

  lemma {:induction false} RecordPrintable(r: TurnRecord)
    ensures Printable(RecordJson(r)) <==> PrintableRecord(r)
  {
    hide PairedFrom;
    PlainPaired(INDEX, 0);
    PlainPaired(MOVE, 0);
    PlainPaired(BY, 0);
    PlainPaired(HASH, 0);
    var entries := RecordJson(r).entries;
    assert entries[0].value == Num(r.index) && entries[1].value == r.move && entries[2].value == Str(r.player) && entries[3].value == Str(r.hash);
  }

  lemma {:induction false} RecordItemsAt(log: seq<TurnRecord>, i: nat)
    requires i < |log|
    ensures |RecordItems(log)| == |log| && RecordItems(log)[i] == RecordJson(log[i])
    decreases |log|
  {
    if |log| > 1 {
      RecordItemsAt(log[1..], if i > 0 then i - 1 else 0);
    }
  }

  lemma {:induction false} LogPrintable(log: seq<TurnRecord>)
    ensures Printable(RecordsJson(log)) <==> PrintableLog(log)
  {
    hide Printable, PrintableRecord;
    assert |log| == 0 ==> RecordItems(log) == [];
    forall i | 0 <= i < |log|
      ensures |RecordItems(log)| == |log| && (Printable(RecordItems(log)[i]) <==> PrintableRecord(log[i]))
    {
      RecordItemsAt(log, i);
      RecordPrintable(log[i]);
    }
    ArrayPrintable(RecordItems(log));
    if |log| > 0 {
      RecordItemsAt(log, 0);
    }
  }

  lemma {:induction false} ArrayPrintable(items: seq<Json>)
    ensures Printable(Arr(items)) <==> forall i :: 0 <= i < |items| ==> Printable(items[i])
  {
  }

  function RecordTexts(log: seq<TurnRecord>): seq<Text> {
    if |log| == 0 then [] else [RecordText(log[0])] + RecordTexts(log[1..])
  }

  lemma {:induction false} RecordTextsBraced(log: seq<TurnRecord>)
    ensures |RecordTexts(log)| == |log| && BytesOf(RecordTexts(log)) == Weight(log)
    ensures forall i :: 0 <= i < |log| ==> Braced(RecordTexts(log)[i])
    decreases |log|
  {
    if |log| > 0 {
      RecordTextsBraced(log[1..]);
      assert Braced(RecordText(log[0]));
      assert RecordTexts(log)[1..] == RecordTexts(log[1..]);
    }
  }

  lemma {:induction false} PrintedItems(log: seq<TurnRecord>)
    ensures PrintItems(NormalizeItems(RecordItems(log))) == RecordTexts(log)
    decreases |log|
  {
    if |log| > 0 {
      PrintedItems(log[1..]);
      var items := RecordItems(log);
      assert items == [RecordJson(log[0])] + RecordItems(log[1..]);
      assert items[1..] == RecordItems(log[1..]);
      assert NormalizeItems(items)[1..] == NormalizeItems(items[1..]);
    }
  }

  /** A log's bytes: its records', a comma between two of them, and the brackets. */
  lemma {:induction false} LogBytes(rules: Rules, log: seq<TurnRecord>)
    requires Playable(rules)
    ensures RecordBytes(rules, log) ==
      if !PrintableLog(log) then None else if |log| == 0 then Some(2) else Some(Weight(log) + |log| + 1)
  {
    LogPrintable(log);
    CanonicalIsPrint(RecordsJson(log));
    assert rules.bytes(RecordsJson(log)) == CanonicalBytes(RecordsJson(log));
    if PrintableLog(log) {
      PrintedItems(log);
      RecordTextsBraced(log);
      assert Normalize(RecordsJson(log)) == Arr(NormalizeItems(RecordItems(log)));
      BracketedBytes(RecordTexts(log));
    }
  }

  lemma {:induction false} BracketedBytes(texts: seq<Text>)
    requires forall i :: 0 <= i < |texts| ==> Braced(texts[i])
    ensures ByteLength(['[' as int] + Join(texts, [COMMA]) + [']' as int])
      == if |texts| == 0 then 2 else BytesOf(texts) + |texts| + 1
  {
    var open: Text, close: Text, inner := ['[' as int], [']' as int], Join(texts, [COMMA]);
    assert open[1..] == [] && close[1..] == [];
    assert ByteLength(open[1..]) == 0;
    assert ByteLength(open) == 1 && ByteLength(close) == 1;
    if |texts| > 0 {
      JoinedBytes(texts);
    } else {
      assert inner == [] && open + [] == open;
    }
    BytesAppend(open, inner);
    BytesAppend(open + inner, close);
  }

  // ---- Parts ---------------------------------------------------------------------------------------------

  function SizeOf(rules: Rules, part: seq<TurnRecord>): nat {
    if RecordBytes(rules, part).Some? then RecordBytes(rules, part).value else 0
  }

  /** The bytes of parts, each printed by itself. */
  function PartBytes(rules: Rules, parts: seq<seq<TurnRecord>>): nat {
    if |parts| == 0 then 0
    else SizeOf(rules, parts[0]) + PartBytes(rules, parts[1..])
  }

  lemma {:induction false} PrintableParts(parts: seq<seq<TurnRecord>>)
    requires PrintableLog(Flatten(parts))
    ensures forall k :: 0 <= k < |parts| ==> PrintableLog(parts[k])
    decreases |parts|
  {
    if |parts| > 0 {
      var first, rest := parts[0], Flatten(parts[1..]);
      var log := first + rest;
      assert forall i :: 0 <= i < |first| ==> first[i] == log[i];
      assert forall i :: 0 <= i < |rest| ==> rest[i] == log[|first| + i];
      PrintableParts(parts[1..]);
    }
  }

  lemma {:induction false} PartBytesWeigh(rules: Rules, parts: seq<seq<TurnRecord>>)
    requires Playable(rules) && PrintableLog(Flatten(parts))
    requires forall k :: 0 <= k < |parts| ==> |parts[k]| > 0
    ensures PartBytes(rules, parts) == Weight(Flatten(parts)) + |Flatten(parts)| + |parts|
    decreases |parts|
  {
    if |parts| > 0 {
      PrintableParts(parts);
      LogBytes(rules, parts[0]);
      WeightAppend(parts[0], Flatten(parts[1..]));
      var rest := Flatten(parts[1..]);
      assert forall i :: 0 <= i < |rest| ==> rest[i] == Flatten(parts)[|parts[0]| + i];
      PartBytesWeigh(rules, parts[1..]);
    }
  }

  /** Cut into parts, a log takes one byte more for every part but the first. */
  lemma {:induction false} CutTakesMore(rules: Rules, parts: seq<seq<TurnRecord>>)
    requires Playable(rules) && |parts| > 0 && PrintableLog(Flatten(parts))
    requires forall k :: 0 <= k < |parts| ==> |parts[k]| > 0
    ensures RecordBytes(rules, Flatten(parts)).Some?
    ensures PartBytes(rules, parts) == RecordBytes(rules, Flatten(parts)).value + |parts| - 1
  {
    PartBytesWeigh(rules, parts);
    LogBytes(rules, Flatten(parts));
    assert |Flatten(parts)| >= |parts[0]| > 0;
  }

  // ---- At least eighty bytes a record ---------------------------------------------------------------------

  function Units(entries: seq<Entry>): nat {
    if |entries| == 0 then 0
    else |Quote(entries[0].key)| + 1 + |Print(entries[0].value)| + Units(entries[1..])
  }

  lemma {:induction false} UnitsInserted(e: Entry, entries: seq<Entry>)
    ensures Units(Insert(e, entries)) == Units([e]) + Units(entries)
    decreases |entries|
  {
    assert [e][1..] == [];
    assert ([e] + entries)[1..] == entries;
    if |entries| > 0 {
      UnitsInserted(e, entries[1..]);
      assert ([entries[0]] + Insert(e, entries[1..]))[1..] == Insert(e, entries[1..]);
    }
  }

  lemma {:induction false} UnitsSorted(entries: seq<Entry>)
    ensures Units(Sort(entries)) == Units(entries)
    decreases |entries|
  {
    if |entries| > 0 {
      UnitsSorted(entries[1..]);
      UnitsInserted(entries[0], Sort(entries[1..]));
      assert [entries[0]][1..] == [];
    }
  }

  lemma {:induction false} MembersPrinted(entries: seq<Entry>)
    ensures |Join(PrintMembers(entries), [COMMA])| >= Units(entries)
    decreases |entries|
  {
    if |entries| > 0 {
      MembersPrinted(entries[1..]);
      assert PrintMembers(entries)[1..] == PrintMembers(entries[1..]);
    }
  }

  lemma {:induction false} EscapedLength(t: Text)
    ensures |Escaped(t)| >= |t| + 1
    decreases |t|
  {
    if |t| > 0 {
      EscapedLength(t[1..]);
    }
  }

  lemma {:induction false} RecordWeighs(r: TurnRecord)
    requires IsHash(r.hash)
    ensures ByteLength(RecordText(r)) >= 80
  {
    var entries := NormalizeEntries(RecordJson(r).entries);
    UnitsSorted(entries);
    MembersPrinted(Sort(entries));
    EscapedLength(r.hash);
    EscapedLength(HASH);
    EscapedLength(BY);
    EscapedLength(r.player);
    assert entries[0..] == entries && entries[1..][1..] == entries[2..] && entries[2..][1..] == entries[3..] && entries[3..][1..] == [];
    assert Units(entries[3..]) >= |Quote(HASH)| + 1 + |Quote(r.hash)|;
    assert Units(entries[2..]) >= |Quote(BY)| + 1 + |Quote(r.player)| + Units(entries[3..]);
    assert Units(entries[1..]) >= Units(entries[2..]);
    BytesAtLeastUnits(RecordText(r));
  }

  predicate Hashes(log: seq<TurnRecord>) {
    forall i :: 0 <= i < |log| ==> IsHash(log[i].hash)
  }

  lemma {:induction false} LogWeighs(log: seq<TurnRecord>)
    requires Hashes(log)
    ensures Weight(log) >= 80 * |log|
    decreases |log|
  {
    if |log| > 0 {
      RecordWeighs(log[0]);
      LogWeighs(log[1..]);
    }
  }

  /** A log within its cap in bytes is within the cap in records that a manifest is held to. */
  lemma {:induction false} FewEnough(rules: Rules, log: seq<TurnRecord>)
    requires Playable(rules) && Hashes(log) && |log| > 0 && LogFits(rules, log, rules.maxBytes)
    ensures |log| <= rules.maxBytes / 80
  {
    LogBytes(rules, log);
    LogWeighs(log);
  }

  // ---- Copies ------------------------------------------------------------------------------------------------

  lemma {:induction false} CopyWeighs(r: TurnRecord)
    ensures RecordText(CopyRecord(r)) == RecordText(r) && (PrintableRecord(r) ==> PrintableRecord(CopyRecord(r)))
  {
    NormalizeIsStable(r.move);
    var a, b := RecordJson(r).entries, RecordJson(CopyRecord(r)).entries;
    assert NormalizeEntries(a) == NormalizeEntries(b);
    SameJsonItself(r.move);
    PrintableSame(r.move, Copy(r.move));
  }

  lemma {:induction false} CopyLogWeighs(log: seq<TurnRecord>)
    ensures Weight(CopyLog(log)) == Weight(log) && (PrintableLog(log) ==> PrintableLog(CopyLog(log)))
  {
    forall i | 0 <= i < |log|
      ensures RecordText(CopyLog(log)[i]) == RecordText(log[i])
      ensures PrintableRecord(log[i]) ==> PrintableRecord(CopyLog(log)[i])
    {
      CopyWeighs(log[i]);
    }
    SameWeight(log, CopyLog(log));
  }

  lemma {:induction false} SameWeight(a: seq<TurnRecord>, b: seq<TurnRecord>)
    requires |a| == |b| && forall i :: 0 <= i < |a| ==> RecordText(a[i]) == RecordText(b[i])
    ensures Weight(a) == Weight(b)
    decreases |a|
  {
    if |a| > 0 {
      SameWeight(a[1..], b[1..]);
    }
  }

  /** A copy of a log takes as many bytes. */
  lemma {:induction false} CopyBytes(rules: Rules, log: seq<TurnRecord>)
    requires Playable(rules) && RecordBytes(rules, log).Some?
    ensures RecordBytes(rules, CopyLog(log)) == RecordBytes(rules, log)
  {
    LogBytes(rules, log);
    CopyLogWeighs(log);
    LogBytes(rules, CopyLog(log));
  }

  // ---- Parts held by a requester ----------------------------------------------------------------------------

  /** The bytes of the parts that have come, from part `i` on. */
  function HeldBytes(rules: Rules, parts: map<int, seq<TurnRecord>>, count: int, i: nat): nat
    decreases count - i
  {
    if i >= count then 0
    else (if i in parts then SizeOf(rules, parts[i]) else 0) + HeldBytes(rules, parts, count, i + 1)
  }

  lemma {:induction false} HeldMoreBytes(rules: Rules, parts: map<int, seq<TurnRecord>>, count: int, k: nat, part: seq<TurnRecord>, i: nat)
    requires k !in parts && k < count
    ensures HeldBytes(rules, parts[k := part], count, i)
      == HeldBytes(rules, parts, count, i) + if i <= k then SizeOf(rules, part) else 0
    decreases count - i
  {
    if i < count {
      HeldMoreBytes(rules, parts, count, k, part, i + 1);
    }
  }

  lemma {:induction false} NothingHeld(rules: Rules, count: int, i: nat)
    ensures HeldBytes(rules, map[], count, i) == 0
    decreases count - i
  {
    if i < count {
      NothingHeld(rules, count, i + 1);
    }
  }

  /** Once all have come, their bytes are those of the parts in order. */
  lemma {:induction false} HeldAll(rules: Rules, parts: map<int, seq<TurnRecord>>, listed: seq<seq<TurnRecord>>, i: nat)
    requires i <= |listed| && forall k :: i <= k < |listed| ==> k in parts && parts[k] == listed[k]
    ensures HeldBytes(rules, parts, |listed|, i) == PartBytes(rules, listed[i..])
    decreases |listed| - i
  {
    if i < |listed| {
      HeldAll(rules, parts, listed, i + 1);
      assert listed[i..][1..] == listed[i + 1..];
    }
  }

  /** What has come takes no more than everything. */
  lemma {:induction false} HeldAtMost(rules: Rules, parts: map<int, seq<TurnRecord>>, listed: seq<seq<TurnRecord>>, i: nat)
    requires i <= |listed| && forall k :: i <= k < |listed| && k in parts ==> parts[k] == listed[k]
    ensures HeldBytes(rules, parts, |listed|, i) <= PartBytes(rules, listed[i..])
    decreases |listed| - i
  {
    if i < |listed| {
      HeldAtMost(rules, parts, listed, i + 1);
      assert listed[i..][1..] == listed[i + 1..];
    }
  }
}
