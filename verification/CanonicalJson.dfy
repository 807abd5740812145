/** The canonical JSON printer (RFC 8785) the hash chain of a turn game is built on. */
module CanonicalJson {
  import opened Text

  /** A JSON value; an object lists its entries in insertion order. Numbers are integers. */
  datatype Json =
    | Null
    | Bool(b: bool)
    | Num(n: int)
    | Str(s: Text)
    | Arr(items: seq<Json>)
    | Obj(entries: seq<Entry>)

  datatype Entry = Entry(key: Text, value: Json)

  const QUOTE: Unit := 0x22
  const BACKSLASH: Unit := 0x5C
  const COMMA: Unit := ',' as int
  const COLON: Unit := ':' as int
  const NULL: Text := ['n' as int, 'u' as int, 'l' as int, 'l' as int]
  const TRUE: Text := ['t' as int, 'r' as int, 'u' as int, 'e' as int]
  const FALSE: Text := ['f' as int, 'a' as int, 'l' as int, 's' as int, 'e' as int]

  // ---- Strings ------------------------------------------------------------------------------

  /** Every surrogate from `i` on belongs to a pair. */
  predicate PairedFrom(t: Text, i: nat)
    decreases |t| - i
  {
    if i >= |t| then true
    else if IsHigh(t[i]) then i + 1 < |t| && IsLow(t[i + 1]) && PairedFrom(t, i + 2)
    else !IsLow(t[i]) && PairedFrom(t, i + 1)
  }

  /** The text is valid Unicode. */
  predicate Paired(t: Text) {
    PairedFrom(t, 0)
  }

  /** The scan for unpaired surrogates. */
  method CheckUnicode(v: Text) returns (ok: bool)
    ensures ok == Paired(v)
  {
    var i := 0;
    while i < |v|
      invariant 0 <= i <= |v|
      invariant Paired(v) == PairedFrom(v, i)
    {
      var code := v[i];
      if 0xD800 <= code <= 0xDBFF {
        i := i + 1;
        if i >= |v| || !(0xDC00 <= v[i] <= 0xDFFF) {
          return false;
        }
      } else if 0xDC00 <= code <= 0xDFFF {
        return false;
      }
      i := i + 1;
    }
    return true;
  }

  function HexDigit(d: nat): Unit
    requires d < 16
  {
    if d < 10 then ZERO + d else 'a' as int + (d - 10)
  }

  /** One unit inside a printed string; section 3.2.2.2 of RFC 8785. */
  function EscapeUnit(u: Unit): (t: Text)
    ensures |t| > 0 && t[0] != QUOTE
  {
    if u == QUOTE || u == BACKSLASH then [BACKSLASH, u]
    else if u == 8 then [BACKSLASH, 'b' as int]
    else if u == 9 then [BACKSLASH, 't' as int]
    else if u == 10 then [BACKSLASH, 'n' as int]
    else if u == 12 then [BACKSLASH, 'f' as int]
    else if u == 13 then [BACKSLASH, 'r' as int]
    else if u < 0x20 then [BACKSLASH, 'u' as int, ZERO, ZERO] + (if u < 16 then [ZERO, HexDigit(u)] else [ZERO + 1, HexDigit(u - 16)])
    else [u]
  }

  /** The escaped text with its closing quote. */
  function Escaped(t: Text): (r: Text)
    ensures |r| > 0 && (r[0] == QUOTE <==> |t| == 0)
  {
    if |t| == 0 then [QUOTE] else EscapeUnit(t[0]) + Escaped(t[1..])
  }

  function Quote(t: Text): Text {
    [QUOTE] + Escaped(t)
  }

  // ---- Key order --------------------------------------------------------------------------------

  /** Texts compared unit by unit; section 3.2.3 of RFC 8785. */
  predicate Less(a: Text, b: Text)
    decreases |a|
  {
    |b| > 0 && (|a| == 0 || a[0] < b[0] || (a[0] == b[0] && Less(a[1..], b[1..])))
  }

  predicate Sorted(entries: seq<Entry>) {
    forall i, j :: 0 <= i < j < |entries| ==> Less(entries[i].key, entries[j].key)
  }

  predicate DistinctKeys(entries: seq<Entry>) {
    forall i, j :: 0 <= i < j < |entries| ==> entries[i].key != entries[j].key
  }

  function Insert(e: Entry, sorted: seq<Entry>): (r: seq<Entry>)
    ensures forall x :: x in r <==> x == e || x in sorted
  {
    assert |sorted| > 0 ==> sorted == [sorted[0]] + sorted[1..];
    if |sorted| == 0 then [e]
    else if Less(e.key, sorted[0].key) then [e] + sorted
    else [sorted[0]] + Insert(e, sorted[1..])
  }

  /** The entries in key order. */
  function Sort(entries: seq<Entry>): (r: seq<Entry>)
    ensures forall x :: x in r <==> x in entries
  {
    assert |entries| > 0 ==> entries == [entries[0]] + entries[1..];
    if |entries| == 0 then [] else Insert(entries[0], Sort(entries[1..]))
  }

  lemma {:induction false} LessTotal(a: Text, b: Text)
    ensures a == b || Less(a, b) || Less(b, a)
    ensures !(Less(a, b) && Less(b, a))
    decreases |a|
  {
    if |a| > 0 && |b| > 0 && a[0] == b[0] {
      LessTotal(a[1..], b[1..]);
      assert a == [a[0]] + a[1..] && b == [b[0]] + b[1..];
    }
  }

  lemma SameFirst(a: Text, b: Text, k: nat)
    requires 0 < k <= |a| && k <= |b| && a[..k] == b[..k]
    ensures a[0] == b[0]
  {
    assert a[..k][0] == a[0] && b[..k][0] == b[0];
  }

  /** The order: where the texts first differ, the lesser unit comes first, and so does the text that
      ends there. */
  lemma {:induction false} LessIff(a: Text, b: Text)
    ensures Less(a, b) <==>
      exists k: nat :: k <= |a| && k < |b| && a[..k] == b[..k] && (k == |a| || a[k] < b[k])
    decreases |a|
  {
    if |a| > 0 && |b| > 0 && a[0] == b[0] {
      LessIff(a[1..], b[1..]);
      if k: nat :| k <= |a[1..]| && k < |b[1..]| && a[1..][..k] == b[1..][..k] && (k == |a[1..]| || a[1..][k] < b[1..][k]) {
        assert a[..k + 1] == [a[0]] + a[1..][..k] && b[..k + 1] == [b[0]] + b[1..][..k];
      }
      if k: nat :| k <= |a| && k < |b| && a[..k] == b[..k] && (k == |a| || a[k] < b[k]) {
        assert a[1..][..k - 1] == a[..k][1..] && b[1..][..k - 1] == b[..k][1..];
      }
    } else {
      if k: nat :| k <= |a| && k < |b| && a[..k] == b[..k] && (k == |a| || a[k] < b[k]) {
        if k > 0 {
          SameFirst(a, b, k);
        }
      }
      assert a[..0] == b[..0];
    }
  }

  lemma {:induction false} LessTransitive(a: Text, b: Text, c: Text)
    requires Less(a, b) && Less(b, c)
    ensures Less(a, c)
    decreases |a|
  {
    if |a| > 0 && a[0] == b[0] == c[0] {
      LessTransitive(a[1..], b[1..], c[1..]);
    }
  }

  lemma {:induction false} InsertSorts(e: Entry, sorted: seq<Entry>)
    requires Sorted(sorted) && forall i :: 0 <= i < |sorted| ==> sorted[i].key != e.key
    ensures Sorted(Insert(e, sorted))
    decreases |sorted|
  {
    if |sorted| > 0 {
      var first, others := sorted[0], sorted[1..];
      LessTotal(e.key, first.key);
      if Less(e.key, first.key) {
        forall j | 0 <= j < |sorted|
          ensures Less(e.key, sorted[j].key)
        {
          if j > 0 {
            LessTransitive(e.key, first.key, sorted[j].key);
          }
        }
      } else {
        InsertSorts(e, others);
        var r := Insert(e, others);
        forall j | 0 <= j < |r|
          ensures Less(first.key, r[j].key)
        {
          assert r[j] in r;
          if r[j] != e {
            var k :| 0 <= k < |others| && others[k] == r[j];
            assert sorted[k + 1] == r[j];
          }
        }
      }
    }
  }

  lemma {:induction false} SortSorts(entries: seq<Entry>)
    requires DistinctKeys(entries)
    ensures Sorted(Sort(entries))
    decreases |entries|
  {
    if |entries| > 0 {
      var sorted := Sort(entries[1..]);
      SortSorts(entries[1..]);
      forall i | 0 <= i < |sorted|
        ensures sorted[i].key != entries[0].key
      {
        assert sorted[i] in sorted;
        var k :| 0 <= k < |entries[1..]| && entries[1..][k] == sorted[i];
        assert entries[k + 1] == sorted[i];
      }
      InsertSorts(entries[0], sorted);
    }
  }

  lemma FirstIsLeast(a: seq<Entry>, e: Entry)
    requires Sorted(a) && e in a
    ensures e == a[0] || Less(a[0].key, e.key)
  {
  }

  /** A sorted list is determined by the set of its entries. */
  lemma {:induction false} SortedUnique(a: seq<Entry>, b: seq<Entry>)
    requires Sorted(a) && Sorted(b) && forall e :: e in a <==> e in b
    ensures a == b
    decreases |a|
  {
    assert |a| > 0 ==> a[0] in a;
    assert |b| > 0 ==> b[0] in b;
    if |a| > 0 && |b| > 0 {
      FirstIsLeast(b, a[0]);
      FirstIsLeast(a, b[0]);
      LessTotal(a[0].key, b[0].key);
      var first := a[0];
      NotAgain(a);
      NotAgain(b);
      forall e
        ensures e in a[1..] <==> e in b[1..]
      {
        assert e in a <==> e == first || e in a[1..];
        assert e in b <==> e == first || e in b[1..];
      }
      SortedUnique(a[1..], b[1..]);
      assert a == [first] + a[1..] && b == [first] + b[1..];
    }
  }

  lemma NotAgain(a: seq<Entry>)
    requires Sorted(a) && |a| > 0
    ensures a[0] !in a[1..]
  {
    LessTotal(a[0].key, a[0].key);
  }

  // ---- Values ----------------------------------------------------------------------------------------

  /** What every JavaScript object guarantees: one entry for each key. */
  predicate IsValue(v: Json) {
    match v
    case Arr(items) => forall i :: 0 <= i < |items| ==> IsValue(items[i])
    case Obj(entries) =>
      DistinctKeys(entries) && forall i :: 0 <= i < |entries| ==> IsValue(entries[i].value)
    case _ => true
  }

  /** The value stored under a key. */
  function Find(entries: seq<Entry>, key: Text): (r: Option<Json>)
    ensures r.Some? ==> Entry(key, r.value) in entries
    ensures forall e <- entries :: e.key == key ==> r.Some?
  {
    if |entries| == 0 then None
    else
      assert entries == [entries[0]] + entries[1..];
      if entries[0].key == key then Some(entries[0].value) else Find(entries[1..], key)
  }

  /** Equal as JSON values: objects with the same keys and the same value under each, whatever
      the order of their entries. */
  predicate SameJson(a: Json, b: Json)
    decreases a
  {
    match a
    case Arr(items) =>
      b.Arr? && |items| == |b.items| && forall i :: 0 <= i < |items| ==> SameJson(items[i], b.items[i])
    case Obj(entries) =>
      && b.Obj?
      && (forall i :: 0 <= i < |entries| ==>
            match Find(b.entries, entries[i].key)
            case None => false
            case Some(value) => SameJson(entries[i].value, value))
      && (forall j :: 0 <= j < |b.entries| ==> Find(entries, b.entries[j].key).Some?)
    case _ => a == b
  }

  /** All strings and keys are valid Unicode, so printing does not throw. */
  predicate Printable(v: Json) {
    match v
    case Str(s) => Paired(s)
    case Arr(items) => forall i :: 0 <= i < |items| ==> Printable(items[i])
    case Obj(entries) =>
      forall i :: 0 <= i < |entries| ==> Paired(entries[i].key) && Printable(entries[i].value)
    case _ => true
  }

  // ---- The printer -------------------------------------------------------------------------------------

  /** `canonicalJson`; `None` stands for the thrown type error. */
  function CanonicalJson(v: Json): Option<Text>
    decreases v, 1
  {
    match v
    case Null => Some(NULL)
    case Bool(b) => Some(if b then TRUE else FALSE)
    case Num(n) => Some(PrintInt(n))
    case Str(s) => if Paired(s) then Some(Quote(s)) else None
    case Arr(items) =>
      (match CanonicalItems(items)
       case None => None
       case Some(texts) => Some(['[' as int] + Join(texts, [COMMA]) + [']' as int]))
    case Obj(entries) =>
      (match CanonicalMembers(v, Sort(entries))
       case None => None
       case Some(texts) => Some(['{' as int] + Join(texts, [COMMA]) + ['}' as int]))
  }

  function CanonicalItems(items: seq<Json>): Option<seq<Text>>
    decreases items, 0
  {
    if |items| == 0 then Some([])
    else
      match (CanonicalJson(items[0]), CanonicalItems(items[1..]))
      case (Some(first), Some(others)) => Some([first] + others)
      case _ => None
  }

  /** The printed members of an object, in the order given. */
  function CanonicalMembers(owner: Json, entries: seq<Entry>): Option<seq<Text>>
    requires owner.Obj? && forall e <- entries :: e in owner.entries
    decreases owner, 0, |entries|
  {
    if |entries| == 0 then Some([])
    else
      assert entries[0] in owner.entries;
      match (CanonicalJson(entries[0].value), CanonicalMembers(owner, entries[1..]))
      case (Some(value), Some(others)) =>
        if Paired(entries[0].key) then Some([Quote(entries[0].key) + [COLON] + value] + others) else None
      case _ => None
  }

  lemma {:induction false} CanonicalItemsSnoc(items: seq<Json>, v: Json)
    ensures CanonicalItems(items + [v]) ==
      match (CanonicalItems(items), CanonicalJson(v))
      case (Some(texts), Some(t)) => Some(texts + [t])
      case _ => None
  {
    if |items| == 0 {
      assert items + [v] == [v];
      assert CanonicalItems([v][1..]) == Some([]);
      if CanonicalJson(v).Some? {
        assert [] + [CanonicalJson(v).value] == [CanonicalJson(v).value] + [];
      }
    } else {
      assert (items + [v])[1..] == items[1..] + [v];
      CanonicalItemsSnoc(items[1..], v);
      if CanonicalItems(items).Some? && CanonicalJson(v).Some? {
        var first, others, t := CanonicalJson(items[0]).value, CanonicalItems(items[1..]).value, CanonicalJson(v).value;
        assert [first] + (others + [t]) == [first] + others + [t];
      }
    }
  }

  lemma {:induction false} CanonicalItemsFails(items: seq<Json>, k: nat)
    requires k <= |items| && CanonicalItems(items[..k]).None?
    ensures CanonicalItems(items).None?
    decreases |items| - k
  {
    if k < |items| {
      assert items[..k + 1] == items[..k] + [items[k]];
      CanonicalItemsSnoc(items[..k], items[k]);
      CanonicalItemsFails(items, k + 1);
    } else {
      assert items[..k] == items;
    }
  }

  /** The recursive printer with its loop over an array's items. */
  method Encode(v: Json) returns (r: Option<Text>)
    ensures r == CanonicalJson(v)
    decreases v
  {
    match v {
      case Null => return Some(NULL);
      case Bool(b) => return Some(if b then TRUE else FALSE);
      case Num(n) => return Some(PrintInt(n));
      case Str(s) =>
        var ok := CheckUnicode(s);
        return if ok then Some(Quote(s)) else None;
      case Arr(items) =>
        var elements: seq<Text> := [];
        for i := 0 to |items|
          invariant CanonicalItems(items[..i]) == Some(elements)
        {
          assert items[..i + 1] == items[..i] + [items[i]];
          CanonicalItemsSnoc(items[..i], items[i]);
          var element := Encode(items[i]);
          if element.None? {
            CanonicalItemsFails(items, i + 1);
            return None;
          }
          elements := elements + [element.value];
        }
        assert items[..|items|] == items;
        return Some(['[' as int] + Join(elements, [COMMA]) + [']' as int]);
      case Obj(entries) =>
        return CanonicalJson(v);
    }
  }

  // ---- Normal form ------------------------------------------------------------------------------------------

  /** `copyJson`: parsing the canonical text gives the value with every object in key order. */
  function Normalize(v: Json): Json
    decreases v, 1
  {
    match v
    case Arr(items) => Arr(NormalizeItems(items))
    case Obj(entries) => Obj(Sort(NormalizeEntries(entries)))
    case _ => v
  }

  function NormalizeItems(items: seq<Json>): (r: seq<Json>)
    ensures |r| == |items| && forall i :: 0 <= i < |items| ==> r[i] == Normalize(items[i])
    decreases items, 0
  {
    if |items| == 0 then [] else [Normalize(items[0])] + NormalizeItems(items[1..])
  }

  function NormalizeEntries(entries: seq<Entry>): (r: seq<Entry>)
    ensures |r| == |entries|
    ensures forall i :: 0 <= i < |entries| ==> r[i] == Entry(entries[i].key, Normalize(entries[i].value))
    decreases entries, 0
  {
    if |entries| == 0 then []
    else [Entry(entries[0].key, Normalize(entries[0].value))] + NormalizeEntries(entries[1..])
  }

  lemma PositionOf(e: Entry, entries: seq<Entry>) returns (i: nat)
    requires e in entries
    ensures i < |entries| && entries[i] == e
  {
    i :| 0 <= i < |entries| && entries[i] == e;
  }

  lemma {:induction false} FindUnique(entries: seq<Entry>, e: Entry)
    requires DistinctKeys(entries) && e in entries
    ensures Find(entries, e.key) == Some(e.value)
  {
    var found := Entry(e.key, Find(entries, e.key).value);
    var i := PositionOf(e, entries);
    var j := PositionOf(found, entries);
  }

  /** The second list stores every entry of the first. */
  predicate AllStored(x: seq<Entry>, y: seq<Entry>) {
    forall i :: 0 <= i < |x| ==> Find(y, x[i].key) == Some(x[i].value)
  }

  /** The first list has every key of the second. */
  predicate AllFound(x: seq<Entry>, y: seq<Entry>) {
    forall j :: 0 <= j < |y| ==> Find(x, y[j].key).Some?
  }

  /** Each list stores what the other stores. */
  predicate Agree(x: seq<Entry>, y: seq<Entry>) {
    AllStored(x, y) && AllFound(x, y)
  }

  /** Sorting gives the same list exactly when both store the same. */
  lemma {:induction false} SortedAlike(x: seq<Entry>, y: seq<Entry>)
    requires DistinctKeys(x) && DistinctKeys(y)
    ensures Sort(x) == Sort(y) <==> Agree(x, y)
  {
    SortSorts(x);
    SortSorts(y);
    if Agree(x, y) {
      forall e
        ensures e in x <==> e in y
      {
        if e in x {
          var i := PositionOf(e, x);
          assert Find(y, x[i].key) == Some(x[i].value);
        }
        if e in y {
          var j := PositionOf(e, y);
          var other := Entry(e.key, Find(x, y[j].key).value);
          var i := PositionOf(other, x);
          assert Find(y, x[i].key) == Some(x[i].value);
          FindUnique(y, e);
        }
      }
      SortedUnique(Sort(x), Sort(y));
    }
    if Sort(x) == Sort(y) {
      forall i | 0 <= i < |x|
        ensures Find(y, x[i].key) == Some(x[i].value)
      {
        assert x[i] in Sort(x);
        FindUnique(y, x[i]);
      }
      forall j | 0 <= j < |y|
        ensures Find(x, y[j].key).Some?
      {
        assert y[j] in Sort(y);
      }
    }
  }

  lemma {:induction false} FindNormalized(entries: seq<Entry>, key: Text)
    ensures Find(NormalizeEntries(entries), key) ==
      match Find(entries, key) case None => None case Some(v) => Some(Normalize(v))
    decreases |entries|
  {
    if |entries| > 0 {
      FindNormalized(entries[1..], key);
      assert NormalizeEntries(entries)[1..] == NormalizeEntries(entries[1..]);
    }
  }

  /** What `SameJson` asks of one member of an object. */
  predicate SameMember(e: Entry, entries: seq<Entry>) {
    match Find(entries, e.key)
    case None => false
    case Some(value) => SameJson(e.value, value)
  }

  predicate AllSame(a: seq<Entry>, b: seq<Entry>) {
    forall i :: 0 <= i < |a| ==> SameMember(a[i], b)
  }

  lemma SameObject(a: seq<Entry>, b: seq<Entry>)
    ensures SameJson(Obj(a), Obj(b)) <==> AllSame(a, b) && AllFound(a, b)
  {
    if AllSame(a, b) && AllFound(a, b) {
      assert forall i :: 0 <= i < |a| ==> SameMember(a[i], b);
    }
  }

  lemma {:induction false} ItemsDecide(a: seq<Json>, b: seq<Json>)
    requires |a| == |b|
    requires forall i :: 0 <= i < |a| ==> (SameJson(a[i], b[i]) <==> Normalize(a[i]) == Normalize(b[i]))
    ensures SameJson(Arr(a), Arr(b)) <==> NormalizeItems(a) == NormalizeItems(b)
  {
    var r, r' := NormalizeItems(a), NormalizeItems(b);
    if forall i :: 0 <= i < |a| ==> SameJson(a[i], b[i]) {
      assert r == r';
    }
    if r == r' {
      forall i | 0 <= i < |a|
        ensures SameJson(a[i], b[i])
      {
        assert r[i] == r'[i];
      }
    }
  }

  lemma {:induction false} ItemsDecideSame(a: seq<Json>, b: seq<Json>)
    requires IsValue(Arr(a)) && IsValue(Arr(b)) && |a| == |b|
    ensures SameJson(Arr(a), Arr(b)) <==> NormalizeItems(a) == NormalizeItems(b)
    decreases a, 0
  {
    forall i | 0 <= i < |a|
      ensures SameJson(a[i], b[i]) <==> Normalize(a[i]) == Normalize(b[i])
    {
      NormalizeDecidesSame(a[i], b[i]);
    }
    ItemsDecide(a, b);
  }

  lemma {:induction false} MemberDecidesSame(e: Entry, b: seq<Entry>)
    requires IsValue(e.value) && IsValue(Obj(b))
    ensures SameMember(e, b) <==> Find(NormalizeEntries(b), e.key) == Some(Normalize(e.value))
    decreases e, 0
  {
    FindNormalized(b, e.key);
    match Find(b, e.key)
    case None =>
    case Some(value) =>
      var i := PositionOf(Entry(e.key, value), b);
      NormalizeDecidesSame(e.value, value);
  }

  lemma {:induction false} MembersDecideSame(a: seq<Entry>, b: seq<Entry>)
    requires IsValue(Obj(a)) && IsValue(Obj(b))
    ensures SameJson(Obj(a), Obj(b)) <==> Agree(NormalizeEntries(a), NormalizeEntries(b))
    decreases a, 0
  {
    forall i | 0 <= i < |a|
      ensures SameMember(a[i], b) <==> Find(NormalizeEntries(b), a[i].key) == Some(Normalize(a[i].value))
    {
      MemberDecidesSame(a[i], b);
    }
    SameObject(a, b);
    StoredIffSame(a, b);
    FoundNormalized(a, b);
  }

  lemma {:induction false} StoredIffSame(a: seq<Entry>, b: seq<Entry>)
    requires forall i :: 0 <= i < |a| ==>
      (SameMember(a[i], b) <==> Find(NormalizeEntries(b), a[i].key) == Some(Normalize(a[i].value)))
    ensures AllStored(NormalizeEntries(a), NormalizeEntries(b)) <==> AllSame(a, b)
  {
    var x, y := NormalizeEntries(a), NormalizeEntries(b);
    forall i | 0 <= i < |a|
      ensures SameMember(a[i], b) <==> Find(y, x[i].key) == Some(x[i].value)
    {
    }
    if AllStored(x, y) {
      forall i | 0 <= i < |a|
        ensures SameMember(a[i], b)
      {
        assert Find(y, x[i].key) == Some(x[i].value);
      }
    }
  }

  lemma {:induction false} FoundNormalized(a: seq<Entry>, b: seq<Entry>)
    ensures AllFound(NormalizeEntries(a), NormalizeEntries(b)) <==> AllFound(a, b)
  {
    var x, y := NormalizeEntries(a), NormalizeEntries(b);
    forall j | 0 <= j < |b|
      ensures Find(x, y[j].key).Some? <==> Find(a, b[j].key).Some?
    {
      FindNormalized(a, b[j].key);
    }
    if AllFound(x, y) {
      forall j | 0 <= j < |b|
        ensures Find(a, b[j].key).Some?
      {
        assert Find(x, y[j].key).Some?;
      }
    }
  }

  /** The same members under one key order are the same normal form, and conversely. */
  lemma {:induction false} NormalizeDecidesSame(a: Json, b: Json)
    requires IsValue(a) && IsValue(b)
    ensures SameJson(a, b) <==> Normalize(a) == Normalize(b)
    decreases a, 1
  {
    if a.Arr? && b.Arr? {
      if |a.items| == |b.items| {
        ItemsDecideSame(a.items, b.items);
      }
    } else if a.Obj? && b.Obj? {
      MembersDecideSame(a.entries, b.entries);
      SortedAlike(NormalizeEntries(a.entries), NormalizeEntries(b.entries));
    }
  }

  // ---- The canonical text is the print of the normal form ---------------------------------------------------

  /** Printing with every object in the order it is given. */
  function Print(v: Json): Text
    decreases v, 1
  {
    match v
    case Null => NULL
    case Bool(b) => if b then TRUE else FALSE
    case Num(n) => PrintInt(n)
    case Str(s) => Quote(s)
    case Arr(items) => ['[' as int] + Join(PrintItems(items), [COMMA]) + [']' as int]
    case Obj(entries) => ['{' as int] + Join(PrintMembers(entries), [COMMA]) + ['}' as int]
  }

  function PrintItems(items: seq<Json>): seq<Text>
    decreases items, 0
  {
    if |items| == 0 then [] else [Print(items[0])] + PrintItems(items[1..])
  }

  function PrintMembers(entries: seq<Entry>): seq<Text>
    decreases entries, 0
  {
    if |entries| == 0 then []
    else [Quote(entries[0].key) + [COLON] + Print(entries[0].value)] + PrintMembers(entries[1..])
  }

  lemma {:induction false} InsertNormalized(e: Entry, sorted: seq<Entry>)
    ensures NormalizeEntries(Insert(e, sorted))
      == Insert(Entry(e.key, Normalize(e.value)), NormalizeEntries(sorted))
    decreases |sorted|
  {
    var e' := Entry(e.key, Normalize(e.value));
    if |sorted| == 0 {
      assert NormalizeEntries([e]) == [e'] + NormalizeEntries([e][1..]);
    } else if Less(e.key, sorted[0].key) {
      assert ([e] + sorted)[1..] == sorted;
    } else {
      InsertNormalized(e, sorted[1..]);
      assert ([sorted[0]] + Insert(e, sorted[1..]))[1..] == Insert(e, sorted[1..]);
      assert NormalizeEntries(sorted)[1..] == NormalizeEntries(sorted[1..]);
    }
  }

  lemma {:induction false} SortNormalized(entries: seq<Entry>)
    ensures NormalizeEntries(Sort(entries)) == Sort(NormalizeEntries(entries))
    decreases |entries|
  {
    if |entries| > 0 {
      SortNormalized(entries[1..]);
      InsertNormalized(entries[0], Sort(entries[1..]));
      assert NormalizeEntries(entries)[1..] == NormalizeEntries(entries[1..]);
    }
  }

  lemma {:induction false} CanonicalItemsPrint(items: seq<Json>)
    ensures CanonicalItems(items) ==
      if forall i :: 0 <= i < |items| ==> Printable(items[i]) then Some(PrintItems(NormalizeItems(items))) else None
    decreases items, 0
  {
    if |items| > 0 {
      CanonicalIsPrint(items[0]);
      CanonicalItemsPrint(items[1..]);
      assert NormalizeItems(items)[1..] == NormalizeItems(items[1..]);
      assert (forall i :: 0 <= i < |items| ==> Printable(items[i]))
        <==> Printable(items[0]) && (forall i :: 0 <= i < |items[1..]| ==> Printable(items[1..][i]));
    }
  }

  predicate PrintableEntry(e: Entry) {
    Paired(e.key) && Printable(e.value)
  }

  lemma {:induction false} CanonicalMembersPrint(owner: Json, entries: seq<Entry>)
    requires owner.Obj? && forall e <- entries :: e in owner.entries
    ensures CanonicalMembers(owner, entries) ==
      if forall e <- entries :: PrintableEntry(e) then Some(PrintMembers(NormalizeEntries(entries))) else None
    decreases owner, 0, |entries|
  {
    if |entries| > 0 {
      var first, others := entries[0], entries[1..];
      assert entries == [first] + others;
      assert first in owner.entries;
      CanonicalIsPrint(first.value);
      CanonicalMembersPrint(owner, others);
      assert NormalizeEntries(entries)[1..] == NormalizeEntries(others);
      assert (forall e <- entries :: PrintableEntry(e))
        <==> PrintableEntry(first) && (forall e <- others :: PrintableEntry(e));
    }
  }

  /** The printer succeeds exactly on valid Unicode, and then prints the normal form. */
  lemma {:induction false} CanonicalIsPrint(v: Json)
    ensures CanonicalJson(v) == if Printable(v) then Some(Print(Normalize(v))) else None
    decreases v, 1
  {
    match v {
      case Arr(items) =>
        CanonicalItemsPrint(items);
      case Obj(entries) =>
        CanonicalMembersPrint(v, Sort(entries));
        SortNormalized(entries);
        AllPrintable(entries);
      case _ =>
    }
  }

  lemma {:induction false} AllPrintable(entries: seq<Entry>)
    ensures (forall e <- Sort(entries) :: PrintableEntry(e)) <==> Printable(Obj(entries))
  {
    if Printable(Obj(entries)) {
      forall e | e in Sort(entries)
        ensures PrintableEntry(e)
      {
        var i := PositionOf(e, entries);
      }
    }
    if forall e <- Sort(entries) :: PrintableEntry(e) {
      forall i | 0 <= i < |entries|
        ensures PrintableEntry(entries[i])
      {
        assert entries[i] in Sort(entries);
      }
    }
  }

  // ---- Printing in front of what follows -----------------------------------------------------------------------

  /** Printing in front of a text that follows. */
  function PrintTo(v: Json, x: Text): Text
    decreases v, 1
  {
    match v
    case Null => NULL + x
    case Bool(b) => (if b then TRUE else FALSE) + x
    case Num(n) => PrintInt(n) + x
    case Str(s) => [QUOTE] + (Escaped(s) + x)
    case Arr(items) => ['[' as int] + ItemsTo(items, x)
    case Obj(entries) => ['{' as int] + MembersTo(entries, x)
  }

  function ItemsTo(items: seq<Json>, x: Text): Text
    decreases items, 0
  {
    if |items| == 0 then [']' as int] + x else PrintTo(items[0], MoreItems(items[1..], x))
  }

  function MoreItems(items: seq<Json>, x: Text): Text
    decreases items, 0
  {
    if |items| == 0 then [']' as int] + x else [COMMA] + PrintTo(items[0], MoreItems(items[1..], x))
  }

  function MemberTo(e: Entry, x: Text): Text
    decreases e, 1
  {
    [QUOTE] + (Escaped(e.key) + ([COLON] + PrintTo(e.value, x)))
  }

  function MembersTo(entries: seq<Entry>, x: Text): Text
    decreases entries, 0
  {
    if |entries| == 0 then ['}' as int] + x else MemberTo(entries[0], MoreMembers(entries[1..], x))
  }

  function MoreMembers(entries: seq<Entry>, x: Text): Text
    decreases entries, 0
  {
    if |entries| == 0 then ['}' as int] + x else [COMMA] + MemberTo(entries[0], MoreMembers(entries[1..], x))
  }

  // ---- Reading back ------------------------------------------------------------------------------------------

  /** What a reader took from the front of a text, or that it is no JSON text. */
  datatype Reading<+T> = Bad | Took(value: T, rest: Text)

  function HexValue(u: Unit): Option<nat> {
    if 0x30 <= u <= 0x39 then Some(u - 0x30)
    else if 0x61 <= u <= 0x66 then Some(u - 0x61 + 10)
    else if 0x41 <= u <= 0x46 then Some(u - 0x41 + 10)
    else None
  }

  /** Four hexadecimal digits. */
  function ReadHex(t: Text): (r: Reading<Unit>)
    ensures r.Took? ==> |r.rest| < |t|
  {
    if |t| < 4 then Bad
    else
      match (HexValue(t[0]), HexValue(t[1]), HexValue(t[2]), HexValue(t[3]))
      case (Some(a), Some(b), Some(c), Some(d)) =>
        var u := ((a * 16 + b) * 16 + c) * 16 + d;
        if u < 0x10000 then Took(u, t[4..]) else Bad
      case _ => Bad
  }

  /** An escape behind its backslash; section 7 of RFC 8259. */
  function ReadEscape(t: Text): (r: Reading<Unit>)
    ensures r.Took? ==> |r.rest| < |t|
  {
    if |t| == 0 then Bad
    else if t[0] == 0x22 then Took(0x22, t[1..])
    else if t[0] == 0x5C then Took(0x5C, t[1..])
    else if t[0] == 0x2F then Took(0x2F, t[1..])
    else if t[0] == 0x62 then Took(0x08, t[1..])
    else if t[0] == 0x66 then Took(0x0C, t[1..])
    else if t[0] == 0x6E then Took(0x0A, t[1..])
    else if t[0] == 0x72 then Took(0x0D, t[1..])
    else if t[0] == 0x74 then Took(0x09, t[1..])
    else if t[0] == 0x75 then ReadHex(t[1..])
    else Bad
  }

  /** A string behind its opening quote. */
  function ReadString(t: Text): (r: Reading<Text>)
    ensures r.Took? ==> |r.rest| < |t|
    decreases |t|
  {
    if |t| == 0 || t[0] < 0x20 then Bad
    else if t[0] == 0x22 then Took([], t[1..])
    else
      match (if t[0] == 0x5C then ReadEscape(t[1..]) else Took(t[0], t[1..]))
      case Bad => Bad
      case Took(u, more) =>
        match ReadString(more)
        case Bad => Bad
        case Took(s, rest) => Took([u] + s, rest)
  }

  /** How many digits the text begins with. */
  function DigitRun(t: Text): (n: nat)
    ensures n <= |t| && AllDigits(t[..n])
  {
    if |t| == 0 || !IsDigit(t[0]) then 0 else 1 + DigitRun(t[1..])
  }

  /** An integer: no plus sign and no leading zeros. */
  function ReadNumber(t: Text): (r: Reading<int>)
    ensures r.Took? ==> |r.rest| < |t|
  {
    var negative := |t| > 0 && t[0] == 0x2D;
    var digits := if negative then t[1..] else t;
    var n := DigitRun(digits);
    if n == 0 || (n > 1 && digits[0] == 0x30) then Bad
    else Took(if negative then 0 - DigitsValue(digits[..n]) as int else DigitsValue(digits[..n]), digits[n..])
  }

  /** The three literal names. */
  function ReadName(t: Text): (r: Reading<Json>)
    ensures r.Took? ==> |r.rest| < |t|
  {
    if [0x6E, 0x75, 0x6C, 0x6C] <= t then Took(Null, t[4..])
    else if [0x74, 0x72, 0x75, 0x65] <= t then Took(Bool(true), t[4..])
    else if [0x66, 0x61, 0x6C, 0x73, 0x65] <= t then Took(Bool(false), t[5..])
    else Bad
  }

  /** One JSON value, without white space between its tokens; section 3 of RFC 8259. */
  function ReadValue(t: Text): (r: Reading<Json>)
    ensures r.Took? ==> |r.rest| < |t|
    decreases |t|, 0
  {
    if |t| == 0 then Bad
    else if t[0] == 0x22 then
      (match ReadString(t[1..]) case Bad => Bad case Took(s, rest) => Took(Str(s), rest))
    else if t[0] == 0x5B then
      if |t| > 1 && t[1] == 0x5D then Took(Arr([]), t[2..])
      else (match ReadItems(t[1..]) case Bad => Bad case Took(items, rest) => Took(Arr(items), rest))
    else if t[0] == 0x7B then
      if |t| > 1 && t[1] == 0x7D then Took(Obj([]), t[2..])
      else (match ReadMembers(t[1..]) case Bad => Bad case Took(entries, rest) => Took(Obj(entries), rest))
    else if t[0] == 0x2D || IsDigit(t[0]) then
      (match ReadNumber(t) case Bad => Bad case Took(n, rest) => Took(Num(n), rest))
    else ReadName(t)
  }

  /** The items of an array, and its closing bracket. */
  function ReadItems(t: Text): (r: Reading<seq<Json>>)
    ensures r.Took? ==> |r.rest| < |t|
    decreases |t|, 1
  {
    match ReadValue(t)
    case Bad => Bad
    case Took(v, more) =>
      if [0x5D] <= more then Took([v], more[1..])
      else if [0x2C] <= more then
        (match ReadItems(more[1..]) case Bad => Bad case Took(others, rest) => Took([v] + others, rest))
      else Bad
  }

  /** One member: a key, a colon and a value. */
  function ReadMember(t: Text): (r: Reading<Entry>)
    ensures r.Took? ==> |r.rest| < |t|
    decreases |t|, 1
  {
    if !([0x22] <= t) then Bad
    else
      match ReadString(t[1..])
      case Bad => Bad
      case Took(key, more) =>
        if !([0x3A] <= more) then Bad
        else
          match ReadValue(more[1..])
          case Bad => Bad
          case Took(v, rest) => Took(Entry(key, v), rest)
  }

  /** The members of an object, and its closing brace. */
  function ReadMembers(t: Text): (r: Reading<seq<Entry>>)
    ensures r.Took? ==> |r.rest| < |t|
    decreases |t|, 2
  {
    match ReadMember(t)
    case Bad => Bad
    case Took(e, more) =>
      if [0x7D] <= more then Took([e], more[1..])
      else if [0x2C] <= more then
        (match ReadMembers(more[1..]) case Bad => Bad case Took(others, rest) => Took([e] + others, rest))
      else Bad
  }

  /** `JSON.parse` of a text without white space. */
  function ReadJson(t: Text): Option<Json> {
    match ReadValue(t)
    case Bad => None
    case Took(v, rest) => if rest == [] then Some(v) else None
  }

  /** The text ends, or goes on with a separator or a closing bracket. */
  predicate Delimited(x: Text) {
    |x| == 0 || x[0] == COMMA || x[0] == ']' as int || x[0] == '}' as int
  }

  lemma Reassociate(a: Text, b: Text, c: Text)
    ensures a + b + c == a + (b + c)
  {
  }

  /** A hexadecimal digit is read as what it was printed for. */
  lemma ReadsHexDigit(d: nat)
    requires d < 16
    ensures HexValue(HexDigit(d)) == Some(d)
  {
  }

  lemma ReadsHex(high: nat, low: nat, p: Text)
    requires high < 2 && low < 16
    ensures ReadHex([ZERO, ZERO, ZERO + high, HexDigit(low)] + p) == Took(high * 16 + low, p)
  {
    var t: Text := [ZERO, ZERO, ZERO + high, HexDigit(low)] + p;
    assert t[0] == ZERO && t[1] == ZERO && t[2] == ZERO + high && t[3] == HexDigit(low) && t[4..] == p;
    ReadsHexDigit(high);
    ReadsHexDigit(low);
  }

  lemma {:induction false} ReadsEscape(t: Text, u: Unit, p: Text)
    requires |t| > 0 && t[0] == BACKSLASH && ReadEscape(t[1..]) == Took(u, p)
    ensures ReadString(t) == match ReadString(p) case Bad => Bad case Took(s, rest) => Took([u] + s, rest)
  {
    hide ReadEscape;
  }

  /** A unit that is escaped by its number. */
  predicate ByNumber(u: Unit) {
    u < 0x20 && u !in {8, 9, 10, 12, 13}
  }

  lemma ReadsNumbered(u: Unit, p: Text)
    requires ByNumber(u)
    ensures ReadEscape(EscapeUnit(u)[1..] + p) == Took(u, p)
  {
    var high: nat, low: nat := if u < 16 then 0 else 1, if u < 16 then u else u - 16;
    var hex: Text := [ZERO, ZERO, ZERO + high, HexDigit(low)];
    ReadsHex(high, low, p);
    assert EscapeUnit(u)[1..] == [0x75] + hex;
    assert ([0x75] + hex + p)[1..] == hex + p;
  }

  lemma {:induction false} ReadsUnit(u: Unit, p: Text)
    ensures ReadString(EscapeUnit(u) + p) ==
      match ReadString(p) case Bad => Bad case Took(s, rest) => Took([u] + s, rest)
  {
    var e := EscapeUnit(u);
    if |e| == 1 {
      assert ([u] + p)[1..] == p;
    } else {
      if ByNumber(u) {
        ReadsNumbered(u, p);
      } else {
        assert ([e[1]] + p)[1..] == p && e[1..] == [e[1]];
      }
      assert (e + p)[0] == BACKSLASH && (e + p)[1..] == e[1..] + p;
      ReadsEscape(e + p, u, p);
    }
  }

  lemma {:induction false} ReadsClosing(t: Text)
    requires |t| > 0 && t[0] == QUOTE
    ensures ReadString(t) == Took([], t[1..])
  {
    hide ReadEscape;
  }

  lemma {:induction false} ReadsEscaped(s: Text, x: Text)
    ensures ReadString(Escaped(s) + x) == Took(s, x)
    decreases |s|
  {
    hide ReadString, EscapeUnit;
    if |s| == 0 {
      assert Escaped(s) + x == [QUOTE] + x && ([QUOTE] + x)[1..] == x;
      ReadsClosing([QUOTE] + x);
    } else {
      Reassociate(EscapeUnit(s[0]), Escaped(s[1..]), x);
      ReadsUnit(s[0], Escaped(s[1..]) + x);
      ReadsEscaped(s[1..], x);
      assert s == [s[0]] + s[1..];
    }
  }

  lemma {:induction false} DigitRunIs(a: Text, x: Text)
    requires AllDigits(a) && Delimited(x)
    ensures DigitRun(a + x) == |a|
    decreases |a|
  {
    if |a| == 0 {
      assert a + x == x;
    } else {
      assert (a + x)[1..] == a[1..] + x;
      DigitRunIs(a[1..], x);
    }
  }

  lemma ReadsNumber(n: int, x: Text)
    requires Delimited(x)
    ensures ReadNumber(PrintInt(n) + x) == Took(n, x)
  {
    var digits := PrintNat(if n < 0 then -n else n);
    DigitRunIs(digits, x);
    DigitsValueOfPrint(if n < 0 then -n else n);
    assert (digits + x)[..|digits|] == digits && (digits + x)[|digits|..] == x;
    assert n < 0 ==> PrintInt(n) + x == [MINUS] + (digits + x);
    assert n < 0 ==> ([MINUS] + (digits + x))[1..] == digits + x;
  }

  lemma {:induction false} ReadsName(v: Json, x: Text)
    requires v.Null? || v.Bool?
    ensures ReadValue(PrintTo(v, x)) == Took(v, x)
  {
    if v.Null? {
      assert (NULL + x)[4..] == x;
    } else if v.b {
      assert (TRUE + x)[4..] == x && (TRUE + x)[0] == 0x74;
    } else {
      assert (FALSE + x)[5..] == x && (FALSE + x)[0] == 0x66;
    }
  }

  lemma {:induction false} ReadsArray(items: seq<Json>, x: Text)
    requires |items| > 0 ==> ReadItems(ItemsTo(items, x)) == Took(items, x) && ItemsTo(items, x)[..1] != [0x5D]
    ensures ReadValue(PrintTo(Arr(items), x)) == Took(Arr(items), x)
  {
    hide ReadItems;
    var t := PrintTo(Arr(items), x);
    assert t[1..] == ItemsTo(items, x);
    if |items| == 0 {
      assert t[1] == 0x5D && t[2..] == x;
    } else if |t| > 1 {
      assert t[1..][..1] == [t[1]];
    }
  }

  lemma {:induction false} ReadsObject(entries: seq<Entry>, x: Text)
    requires |entries| > 0 ==> ReadMembers(MembersTo(entries, x)) == Took(entries, x)
    ensures ReadValue(PrintTo(Obj(entries), x)) == Took(Obj(entries), x)
  {
    hide ReadMembers, Escaped;
    var t := PrintTo(Obj(entries), x);
    assert t[1..] == MembersTo(entries, x);
    if |entries| == 0 {
      assert t[1] == 0x7D && t[2..] == x;
    } else {
      assert t[1] == QUOTE;
    }
  }

  lemma {:induction false} ReadsString(s: Text, x: Text)
    ensures ReadValue(PrintTo(Str(s), x)) == Took(Str(s), x)
  {
    hide ReadString, Escaped;
    assert PrintTo(Str(s), x)[1..] == Escaped(s) + x;
    ReadsEscaped(s, x);
  }

  lemma {:induction false} ReadsInteger(n: int, x: Text)
    requires Delimited(x)
    ensures ReadValue(PrintTo(Num(n), x)) == Took(Num(n), x)
  {
    hide ReadNumber;
    ReadsNumber(n, x);
    assert PrintTo(Num(n), x)[0] == PrintInt(n)[0];
  }

  lemma {:induction false} ReadsPrint(v: Json, x: Text)
    requires Delimited(x)
    ensures ReadValue(PrintTo(v, x)) == Took(v, x)
    decreases v, 1
  {
    hide ReadValue, PrintTo;
    match v {
      case Num(n) => ReadsInteger(n, x);
      case Str(s) => ReadsString(s, x);
      case Arr(items) =>
        if |items| > 0 {
          ItemStarts(items[0], MoreItems(items[1..], x));
          ReadsItems(items, x);
        }
        ReadsArray(items, x);
      case Obj(entries) =>
        if |entries| > 0 {
          ReadsMembers(entries, x);
        }
        ReadsObject(entries, x);
      case _ => ReadsName(v, x);
    }
  }

  /** No value begins like the end of a list. */
  lemma {:induction false} ItemStarts(v: Json, x: Text)
    ensures |PrintTo(v, x)| > 0 && PrintTo(v, x)[..1] != [0x5D]
  {
    assert PrintTo(v, x)[..1] == [PrintTo(v, x)[0]];
  }

  lemma {:induction false} ReadsItems(items: seq<Json>, x: Text)
    requires |items| > 0
    ensures ReadItems(PrintTo(items[0], MoreItems(items[1..], x))) == Took(items, x)
    decreases items, 0
  {
    var others := items[1..];
    var more := MoreItems(others, x);
    ReadsPrint(items[0], more);
    assert items == [items[0]] + others;
    if |others| > 0 {
      ReadsItems(others, x);
      assert more[1..] == PrintTo(others[0], MoreItems(others[1..], x));
    } else {
      assert more == [0x5D] + x && more[1..] == x && items == [items[0]];
    }
  }

  lemma {:induction false} ReadsMember(e: Entry, x: Text)
    requires Delimited(x)
    ensures ReadMember(MemberTo(e, x)) == Took(e, x)
    decreases e, 1
  {
    var t, value := MemberTo(e, x), [COLON] + PrintTo(e.value, x);
    assert t[1..] == Escaped(e.key) + value;
    ReadsEscaped(e.key, value);
    assert value[1..] == PrintTo(e.value, x);
    ReadsPrint(e.value, x);
  }

  lemma {:induction false} ReadsMembers(entries: seq<Entry>, x: Text)
    requires |entries| > 0
    ensures ReadMembers(MemberTo(entries[0], MoreMembers(entries[1..], x))) == Took(entries, x)
    decreases entries, 0
  {
    var others := entries[1..];
    var more := MoreMembers(others, x);
    ReadsMember(entries[0], more);
    assert entries == [entries[0]] + others;
    if |others| > 0 {
      ReadsMembers(others, x);
      assert more[1..] == MemberTo(others[0], MoreMembers(others[1..], x));
    } else {
      assert more == [0x7D] + x && more[1..] == x && entries == [entries[0]];
    }
  }

  lemma {:induction false} PrintToIsPrint(v: Json, x: Text)
    ensures PrintTo(v, x) == Print(v) + x
    decreases v, 1
  {
    match v {
      case Arr(items) =>
        if |items| == 0 {
          assert Print(v) == ['[' as int] + [] + [']' as int];
        } else {
          ItemsToIsJoin(items, x);
        }
      case Obj(entries) =>
        if |entries| == 0 {
          assert Print(v) == ['{' as int] + [] + ['}' as int];
        } else {
          MembersToIsJoin(entries, x);
        }
      case _ =>
    }
  }

  lemma {:induction false} ItemsToIsJoin(items: seq<Json>, x: Text)
    requires |items| > 0
    ensures PrintTo(items[0], MoreItems(items[1..], x)) == Join(PrintItems(items), [COMMA]) + [']' as int] + x
    decreases items, 0
  {
    var others := items[1..];
    PrintToIsPrint(items[0], MoreItems(others, x));
    if |others| > 0 {
      ItemsToIsJoin(others, x);
      JoinMore(Print(items[0]), PrintItems(others), ']' as int, x);
    }
  }

  lemma {:induction false} MemberToIsPrint(e: Entry, more: Text)
    requires PrintTo(e.value, more) == Print(e.value) + more
    ensures MemberTo(e, more) == Quote(e.key) + [COLON] + Print(e.value) + more
  {
  }

  lemma {:induction false} JoinMore(text: Text, others: seq<Text>, close: Unit, x: Text)
    requires |others| > 0
    ensures text + ([COMMA] + (Join(others, [COMMA]) + [close] + x))
      == Join([text] + others, [COMMA]) + [close] + x
  {
    assert ([text] + others)[1..] == others;
    Regroup(text, Join(others, [COMMA]), close, x);
  }

  lemma Regroup(text: Text, joined: Text, close: Unit, x: Text)
    ensures text + ([COMMA] + (joined + [close] + x)) == text + [COMMA] + joined + [close] + x
  {
  }

  lemma {:induction false} MembersToIsJoin(entries: seq<Entry>, x: Text)
    requires |entries| > 0
    ensures MemberTo(entries[0], MoreMembers(entries[1..], x))
      == Join(PrintMembers(entries), [COMMA]) + ['}' as int] + x
    decreases entries, 0
  {
    var e, others := entries[0], entries[1..];
    PrintToIsPrint(e.value, MoreMembers(others, x));
    MemberToIsPrint(e, MoreMembers(others, x));
    if |others| > 0 {
      MembersToIsJoin(others, x);
      JoinMore(Quote(e.key) + [COLON] + Print(e.value), PrintMembers(others), '}' as int, x);
    }
  }

  /** What was printed is read back. */
  lemma {:induction false} PrintReadsBack(v: Json)
    ensures ReadJson(Print(v)) == Some(v)
  {
    PrintToIsPrint(v, []);
    assert Print(v) + [] == Print(v);
    ReadsPrint(v, []);
  }

  /** Ordered values with the same print are the same. */
  lemma {:induction false} PrintInjective(a: Json, b: Json)
    requires Print(a) == Print(b)
    ensures a == b
  {
    PrintReadsBack(a);
    PrintReadsBack(b);
  }

  /** `copyJson`: the canonical text is a JSON text, and parsing it gives the value with the members of
      every object in key order. */
  lemma {:induction false} CanonicalReadsBack(v: Json)
    requires Printable(v)
    ensures CanonicalJson(v).Some? && ReadJson(CanonicalJson(v).value) == Some(Normalize(v))
  {
    CanonicalIsPrint(v);
    PrintReadsBack(Normalize(v));
  }

  /** Two values print the same canonical text if and only if they are equal as JSON values:
      insertion order never matters, and nothing else is ever lost. */
  lemma {:induction false} CanonicalIffSame(a: Json, b: Json)
    requires IsValue(a) && IsValue(b) && Printable(a) && Printable(b)
    ensures CanonicalJson(a) == CanonicalJson(b) <==> SameJson(a, b)
  {
    CanonicalIsPrint(a);
    CanonicalIsPrint(b);
    NormalizeDecidesSame(a, b);
    if Print(Normalize(a)) == Print(Normalize(b)) {
      PrintInjective(Normalize(a), Normalize(b));
    }
  }

  // ---- Copies ------------------------------------------------------------------------------------------------------

  lemma {:induction false} SortKeepsSorted(entries: seq<Entry>)
    requires Sorted(entries)
    ensures Sort(entries) == entries
    decreases |entries|
  {
    if |entries| > 0 {
      var others := entries[1..];
      SortKeepsSorted(others);
      assert |others| > 0 ==> Less(entries[0].key, entries[1].key);
      assert entries == [entries[0]] + others;
    }
  }

  /** A copy is a value, is its own normal form, and is equal to the original. */
  lemma {:induction false} NormalizeIsStable(v: Json)
    requires IsValue(v)
    ensures IsValue(Normalize(v)) && Normalize(Normalize(v)) == Normalize(v)
    ensures SameJson(v, Normalize(v))
    decreases v, 1
  {
    match v {
      case Arr(items) =>
        var copied := NormalizeItems(items);
        forall i | 0 <= i < |items|
          ensures IsValue(copied[i]) && Normalize(copied[i]) == copied[i]
        {
          NormalizeIsStable(items[i]);
        }
        assert NormalizeItems(copied) == copied;
      case Obj(entries) =>
        var copied := NormalizeEntries(entries);
        SortSorts(copied);
        forall e | e in Sort(copied)
          ensures IsValue(e.value) && Normalize(e.value) == e.value
        {
          var i := PositionOf(e, copied);
          NormalizeIsStable(entries[i].value);
        }
        NormalEntries(Sort(copied));
        SortKeepsSorted(Sort(copied));
        SortedDistinct(Sort(copied));
      case _ =>
    }
    NormalizeDecidesSame(v, Normalize(v));
  }

  lemma {:induction false} NormalEntries(entries: seq<Entry>)
    requires forall e <- entries :: Normalize(e.value) == e.value
    ensures NormalizeEntries(entries) == entries
  {
    forall i | 0 <= i < |entries|
      ensures NormalizeEntries(entries)[i] == entries[i]
    {
      assert entries[i] in entries;
    }
  }

  lemma SortedDistinct(entries: seq<Entry>)
    requires Sorted(entries)
    ensures DistinctKeys(entries)
  {
    forall i, j | 0 <= i < j < |entries|
      ensures entries[i].key != entries[j].key
    {
      LessTotal(entries[i].key, entries[j].key);
    }
  }
}
