/** The string-aware brace scanner that finds JSON objects inside free text.

    The scanner only counts braces outside string literals.  Objects of that shape form a small
    grammar after sections 4 and 7 of RFC 8259: braces around string literals (with escapes),
    nested objects and other characters.  The scanner cuts out exactly the texts of that grammar. */
module JsonScan {
  import opened Sequences
  import opened Wrappers

  datatype Mode = Outside | InString | Escaped

  datatype Scan = Scan(depth: nat, mode: Mode)

  const START := Scan(0, Outside)

  /** One character of the scan. A `}` without an open brace is ignored. */
  function Next(s: Scan, c: char): Scan {
    match s.mode
    case Escaped => s.(mode := InString)
    case InString => if c == '\\' then s.(mode := Escaped) else if c == '"' then s.(mode := Outside) else s
    case Outside =>
      if c == '"' then s.(mode := InString)
      else if c == '{' then s.(depth := s.depth + 1)
      else if c == '}' && s.depth > 0 then s.(depth := s.depth - 1)
      else s
  }

  /** The scanner's state before character `n`. */
  function At(text: string, n: nat): Scan
    requires n <= |text|
  {
    if n == 0 then START else Next(At(text, n - 1), text[n - 1])
  }

  /** How many characters bring the depth to `floor` for the first time, scanning `t` from `s`. */
  function CloseAt(t: string, s: Scan, floor: nat): (n: Option<nat>)
    ensures n.Some? ==> 1 <= n.value <= |t|
  {
    if t == [] then None
    else if Next(s, t[0]).depth == floor then Some(1)
    else
      match CloseAt(t[1..], Next(s, t[0]), floor)
      case None => None
      case Some(n) => Some(n + 1)
  }

  // ----- The grammar -----

  datatype StringPart = Raw(c: char) | Escape(c: char)

  datatype Item = Other(c: char) | Quoted(parts: seq<StringPart>) | Nested(items: seq<Item>)

  predicate ValidPart(p: StringPart) {
    p.Raw? ==> p.c != '"' && p.c != '\\'
  }

  predicate ValidParts(parts: seq<StringPart>) {
    forall p :: p in parts ==> ValidPart(p)
  }

  predicate ValidItem(item: Item) {
    match item
    case Other(c) => c != '"' && c != '{' && c != '}'
    case Quoted(parts) => ValidParts(parts)
    case Nested(items) => ValidItems(items)
  }

  predicate ValidItems(items: seq<Item>) {
    forall item :: item in items ==> ValidItem(item)
  }

  function PartsText(parts: seq<StringPart>): string {
    if parts == [] then ""
    else PartText(parts[0]) + PartsText(parts[1..])
  }

  function ItemText(item: Item): string {
    match item
    case Other(c) => [c]
    case Quoted(parts) => ['"'] + (PartsText(parts) + ['"'])
    case Nested(items) => ['{'] + (ItemsText(items) + ['}'])
  }

  function ItemsText(items: seq<Item>): string {
    if items == [] then "" else ItemText(items[0]) + ItemsText(items[1..])
  }

  /** The text of an object with the given content. */
  function ObjectText(items: seq<Item>): string {
    ['{'] + (ItemsText(items) + ['}'])
  }

  // ----- Every object text is scanned to its end -----

  function Later(n: Option<nat>, offset: nat): Option<nat> {
    match n case None => None case Some(k) => Some(k + offset)
  }

  lemma ScanChar(c: char, rest: string, s: Scan, floor: nat)
    requires Next(s, c).depth != floor
    ensures CloseAt([c] + rest, s, floor) == Later(CloseAt(rest, Next(s, c), floor), 1)
  {
    assert ([c] + rest)[1..] == rest;
  }

  function PartText(part: StringPart): string {
    match part case Raw(c) => [c] case Escape(c) => ['\\', c]
  }

  lemma ScanPart(part: StringPart, rest: string, d: nat, floor: nat)
    requires d != floor && ValidPart(part)
    ensures CloseAt(PartText(part) + rest, Scan(d, InString), floor) ==
            Later(CloseAt(rest, Scan(d, InString), floor), |PartText(part)|)
  {
    match part
    case Raw(c) =>
      ScanChar(c, rest, Scan(d, InString), floor);
    case Escape(c) =>
      assert ['\\', c] + rest == ['\\'] + ([c] + rest);
      ScanChar('\\', [c] + rest, Scan(d, InString), floor);
      ScanChar(c, rest, Scan(d, Escaped), floor);
  }

  lemma {:induction false} ScanParts(parts: seq<StringPart>, rest: string, d: nat, floor: nat)
    requires d != floor && ValidParts(parts)
    ensures CloseAt(PartsText(parts) + rest, Scan(d, InString), floor) ==
            Later(CloseAt(rest, Scan(d, InString), floor), |PartsText(parts)|)
  {
    if parts == [] {
      assert PartsText(parts) + rest == rest;
    } else {
      assert parts[0] in parts;
      assert PartsText(parts) + rest == PartText(parts[0]) + (PartsText(parts[1..]) + rest);
      ScanPart(parts[0], PartsText(parts[1..]) + rest, d, floor);
      ScanParts(parts[1..], rest, d, floor);
    }
  }

  /** Delimiters around a text that keeps the scan at their level. */
  lemma ScanBracketed(open: char, inner: string, close: char, rest: string, s: Scan, floor: nat)
    requires s.depth != floor && Next(s, open).depth != floor && Next(Next(s, open), close) == s
    requires CloseAt(inner + ([close] + rest), Next(s, open), floor) ==
             Later(CloseAt([close] + rest, Next(s, open), floor), |inner|)
    ensures CloseAt([open] + (inner + [close]) + rest, s, floor) == Later(CloseAt(rest, s, floor), |inner| + 2)
  {
    var tail := [close] + rest;
    assert [open] + (inner + [close]) + rest == [open] + (inner + tail);
    ScanChar(open, inner + tail, s, floor);
    ScanChar(close, rest, Next(s, open), floor);
  }

  lemma {:induction false} ScanItem(item: Item, rest: string, d: nat, floor: nat)
    requires d > floor && ValidItem(item)
    ensures CloseAt(ItemText(item) + rest, Scan(d, Outside), floor) ==
            Later(CloseAt(rest, Scan(d, Outside), floor), |ItemText(item)|)
    decreases item
  {
    match item
    case Other(c) =>
      ScanChar(c, rest, Scan(d, Outside), floor);
    case Quoted(parts) =>
      ScanParts(parts, ['"'] + rest, d, floor);
      ScanBracketed('"', PartsText(parts), '"', rest, Scan(d, Outside), floor);
    case Nested(items) =>
      ScanItems(items, ['}'] + rest, d + 1, floor);
      ScanBracketed('{', ItemsText(items), '}', rest, Scan(d, Outside), floor);
  }

  lemma {:induction false} ScanItems(items: seq<Item>, rest: string, d: nat, floor: nat)
    requires d > floor && ValidItems(items)
    ensures CloseAt(ItemsText(items) + rest, Scan(d, Outside), floor) ==
            Later(CloseAt(rest, Scan(d, Outside), floor), |ItemsText(items)|)
    decreases items
  {
    if items == [] {
      assert ItemsText(items) + rest == rest;
    } else {
      assert items[0] in items;
      var tail := ItemsText(items[1..]) + rest;
      assert ItemsText(items) + rest == ItemText(items[0]) + tail;
      ScanItem(items[0], tail, d, floor);
      ScanItems(items[1..], rest, d, floor);
    }
  }

  // ----- Every scanned span is an object text -----

  /** Below a closing brace the scan passes every level in between, outside of strings. */
  lemma {:induction false} CloseThrough(t: string, s: Scan, mid: nat, floor: nat) returns (k: nat)
    requires s.depth > mid > floor && CloseAt(t, s, floor).Some?
    ensures CloseAt(t, s, mid) == Some(k) && k <= |t|
    ensures CloseAt(t, s, floor) == Later(CloseAt(t[k..], Scan(mid, Outside), floor), k)
  {
    var s' := Next(s, t[0]);
    if s'.depth == mid {
      k := 1;
    } else {
      var k' := CloseThrough(t[1..], s', mid, floor);
      k := k' + 1;
      assert t[1..][k'..] == t[k..];
    }
  }

  /** The first character of a string's content; a backslash takes the next one with it. */
  lemma ParsePart(t: string, d: nat, floor: nat) returns (part: StringPart, width: nat)
    requires d > floor && CloseAt(t, Scan(d, InString), floor).Some? && t[0] != '"'
    ensures ValidPart(part) && 1 <= width <= |t| && PartText(part) == t[..width]
    ensures CloseAt(t, Scan(d, InString), floor) == Later(CloseAt(t[width..], Scan(d, InString), floor), width)
  {
    if t[0] == '\\' {
      part, width := Escape(t[1]), 2;
    } else {
      part, width := Raw(t[0]), 1;
    }
    assert t == PartText(part) + t[width..];
    ScanPart(part, t[width..], d, floor);
  }

  lemma {:induction false} ParseString(t: string, d: nat, floor: nat) returns (parts: seq<StringPart>, k: nat)
    requires d > floor && CloseAt(t, Scan(d, InString), floor).Some?
    ensures ValidParts(parts)
    ensures 1 <= k <= |t| && PartsText(parts) + ['"'] == t[..k]
    ensures CloseAt(t, Scan(d, InString), floor) == Later(CloseAt(t[k..], Scan(d, Outside), floor), k)
    decreases |t|
  {
    if t[0] == '"' {
      parts, k := [], 1;
    } else {
      var part, width := ParsePart(t, d, floor);
      var tail, k' := ParseString(t[width..], d, floor);
      parts, k := [part] + tail, width + k';
      JoinParts(t, part, width, tail, k');
      ValidCons(part, tail);
      CloseInTwo(t, Scan(d, InString), width, Scan(d, InString), k', Scan(d, Outside), floor);
    }
  }

  /** A scan that first passes `a` characters and then `b` more passes `a + b`. */
  lemma CloseInTwo(t: string, s: Scan, a: nat, s': Scan, b: nat, s'': Scan, floor: nat)
    requires a + b <= |t|
    requires CloseAt(t, s, floor) == Later(CloseAt(t[a..], s', floor), a)
    requires CloseAt(t[a..], s', floor) == Later(CloseAt(t[a..][b..], s'', floor), b)
    ensures CloseAt(t, s, floor) == Later(CloseAt(t[a + b..], s'', floor), a + b)
  {
    assert t[a..][b..] == t[a + b..];
  }

  lemma ValidCons(part: StringPart, tail: seq<StringPart>)
    requires ValidPart(part) && ValidParts(tail)
    ensures ValidParts([part] + tail)
  {
  }

  lemma JoinParts(t: string, part: StringPart, width: nat, tail: seq<StringPart>, k: nat)
    requires width + k <= |t| && PartText(part) == t[..width] && PartsText(tail) + ['"'] == t[width..][..k]
    ensures PartsText([part] + tail) + ['"'] == t[..width + k] && t[width..][k..] == t[width + k..]
  {
    assert ([part] + tail)[1..] == tail;
    JoinText(t, width, k);
    Regroup(PartText(part), PartsText(tail), ['"']);
  }

  lemma JoinText(t: string, a: nat, b: nat)
    requires a + b <= |t|
    ensures t[a..][b..] == t[a + b..] && t[..a] + t[a..][..b] == t[..a + b]
  {
  }

  lemma JoinBrackets(t: string, inner: string, close: char, j: nat)
    requires j + 1 <= |t| && inner + [close] == t[1..][..j]
    ensures [t[0]] + (inner + [close]) == t[..j + 1] && t[1..][j..] == t[j + 1..]
  {
  }

  /** The first item of an object's content. */
  lemma {:induction false} ParseItem(t: string, d: nat) returns (item: Item, k: nat)
    requires d > 0 && CloseAt(t, Scan(d, Outside), d - 1).Some? && t[0] != '}'
    ensures ValidItem(item) && 1 <= k <= |t| && ItemText(item) == t[..k]
    ensures CloseAt(t, Scan(d, Outside), d - 1) == Later(CloseAt(t[k..], Scan(d, Outside), d - 1), k)
    decreases |t|, 0
  {
    if t[0] == '"' {
      item, k := ParseQuoted(t, d);
    } else if t[0] == '{' {
      var j := CloseThrough(t[1..], Scan(d + 1, Outside), d, d - 1);
      var inner := ParseItems(t[1..], d + 1);
      item, k := Nested(inner), j + 1;
      JoinBrackets(t, ItemsText(inner), '}', j);
    } else {
      item, k := Other(t[0]), 1;
    }
  }

  lemma ParseQuoted(t: string, d: nat) returns (item: Item, k: nat)
    requires d > 0 && CloseAt(t, Scan(d, Outside), d - 1).Some? && t[0] == '"'
    ensures ValidItem(item) && 1 <= k <= |t| && ItemText(item) == t[..k]
    ensures CloseAt(t, Scan(d, Outside), d - 1) == Later(CloseAt(t[k..], Scan(d, Outside), d - 1), k)
  {
    var parts, j := ParseString(t[1..], d, d - 1);
    item, k := Quoted(parts), j + 1;
    JoinBrackets(t, PartsText(parts), '"', j);
  }

  lemma {:induction false} ParseItems(t: string, d: nat) returns (items: seq<Item>)
    requires d > 0 && CloseAt(t, Scan(d, Outside), d - 1).Some?
    ensures ValidItems(items)
    ensures ItemsText(items) + ['}'] == t[..CloseAt(t, Scan(d, Outside), d - 1).value]
    decreases |t|, 1
  {
    var n := CloseAt(t, Scan(d, Outside), d - 1).value;
    if t[0] == '}' {
      items := [];
    } else {
      var item, k := ParseItem(t, d);
      var tail := ParseItems(t[k..], d);
      items := [item] + tail;
      JoinText(t, k, n - k);
      assert items[1..] == tail;
      assert ItemsText(items) + ['}'] == ItemText(item) + (ItemsText(tail) + ['}']);
    }
  }

  // ----- The object that starts at a position -----

  /** Where the object that starts at `start` ends, if it does. */
  function ObjectEnd(text: string, start: nat): (end: Option<nat>)
    ensures end.Some? ==> start < end.value <= |text|
  {
    if start >= |text| || text[start] != '{' then None else Later(CloseAt(text[start..], START, 0), start)
  }

  /** The scan finds an object at `start` just when a text of the grammar stands there, and
      then exactly that text. */
  lemma ObjectEndIsGrammatical(text: string, start: nat, end: nat)
    requires start <= end <= |text|
    ensures ObjectEnd(text, start) == Some(end) <==>
            exists items :: ValidItems(items) && ObjectText(items) == text[start..end]
  {
    if ObjectEnd(text, start) == Some(end) {
      var items := ObjectAt(text, start);
    }
    if items :| ValidItems(items) && ObjectText(items) == text[start..end] {
      ObjectIsFound(text, start, end, items);
    }
  }

  lemma ObjectAt(text: string, start: nat) returns (items: seq<Item>)
    requires ObjectEnd(text, start).Some?
    ensures ValidItems(items) && ObjectText(items) == text[start..ObjectEnd(text, start).value]
  {
    var t := text[start..];
    items := ParseItems(t[1..], 1);
    var n := CloseAt(t[1..], Scan(1, Outside), 0).value;
    assert ObjectEnd(text, start).value == start + n + 1;
    JoinText(t, 1, n);
    assert t[..1] == ['{'];
  }

  lemma SplitObject(text: string, start: nat, end: nat, inner: string)
    requires start <= end <= |text| && text[start..end] == ['{'] + (inner + ['}'])
    ensures text[start] == '{' && text[start..] == ['{'] + (inner + (['}'] + text[end..]))
  {
    assert text[start] == text[start..end][0];
    assert text[start..] == text[start..end] + text[end..];
  }

  lemma ObjectIsFound(text: string, start: nat, end: nat, items: seq<Item>)
    requires start <= end <= |text| && ValidItems(items) && ObjectText(items) == text[start..end]
    ensures ObjectEnd(text, start) == Some(end)
  {
    var tail := ['}'] + text[end..];
    SplitObject(text, start, end, ItemsText(items));
    ScanChar('{', ItemsText(items) + tail, START, 0);
    ScanItems(items, tail, 1, 0);
    assert CloseAt(tail, Scan(1, Outside), 0) == Some(1);
  }

  // ----- All objects of a text -----

  datatype Span = Span(start: nat, end: nat)

  /** `text[i..j]` runs from a brace at depth 0 to the first return to depth 0. */
  ghost predicate TopLevel(text: string, i: nat, j: nat) {
    && i < j <= |text| && text[i] == '{' && At(text, i) == START
    && At(text, j).depth == 0
    && forall k :: i < k < j ==> At(text, k).depth > 0
  }

  ghost predicate Ordered(spans: seq<Span>) {
    forall a, b :: 0 <= a < b < |spans| ==> spans[a].end <= spans[b].start
  }

  /** Exactly the top-level objects that end by `upTo`, in order and disjoint. */
  ghost predicate Found(text: string, spans: seq<Span>, upTo: nat) {
    && Ordered(spans)
    && (forall s :: s in spans ==> TopLevel(text, s.start, s.end) && s.end <= upTo)
    && (forall i: nat, j: nat :: TopLevel(text, i, j) && j <= upTo ==> Span(i, j) in spans)
  }

  /** Ordered spans with the same members, none of them empty. */
  ghost predicate SameSpans(a: seq<Span>, b: seq<Span>) {
    && Ordered(a) && Ordered(b)
    && (forall s :: s in a <==> s in b)
    && (forall s :: s in a ==> s.start < s.end)
  }

  lemma FirstSpansAgree(a: seq<Span>, b: seq<Span>)
    requires SameSpans(a, b) && a != []
    ensures b != [] && a[0] == b[0]
  {
    assert a[0] in b && b[0] in a;
    var i :| 0 <= i < |b| && b[i] == a[0];
    var j :| 0 <= j < |a| && a[j] == b[0];
    FirstComesFirst(b, i);
    FirstComesFirst(a, j);
  }

  lemma FirstComesFirst(spans: seq<Span>, i: nat)
    requires Ordered(spans) && i < |spans| && spans[0].start < spans[0].end
    ensures spans[0].start <= spans[i].start && (i > 0 ==> spans[0].start < spans[i].start)
  {
    assert i > 0 ==> spans[0].end <= spans[i].start;
  }

  lemma LaterSpans(a: seq<Span>, s: Span)
    requires Ordered(a) && a != [] && a[0].start < a[0].end
    ensures s in a[1..] <==> s in a && s != a[0]
  {
    assert a == [a[0]] + a[1..];
    if s in a[1..] {
      var i :| 0 <= i < |a| - 1 && a[1..][i] == s;
      assert a[i + 1] == s;
    }
  }

  /** In order and disjoint, the same spans make the same sequence. */
  lemma {:induction false} OrderedIsUnique(a: seq<Span>, b: seq<Span>)
    requires SameSpans(a, b)
    ensures a == b
  {
    if a == [] {
      if b != [] {
        FirstSpansAgree(b, a);
      }
    } else {
      FirstSpansAgree(a, b);
      forall s ensures s in a[1..] <==> s in b[1..] {
        LaterSpans(a, s);
        LaterSpans(b, s);
      }
      OrderedIsUnique(a[1..], b[1..]);
      assert a == [a[0]] + a[1..] && b == [b[0]] + b[1..];
    }
  }

  /** There is just one such sequence. */
  lemma FoundIsUnique(text: string, a: seq<Span>, b: seq<Span>, upTo: nat)
    requires Found(text, a, upTo) && Found(text, b, upTo)
    ensures a == b
  {
    forall s ensures s in a <==> s in b {
      assert s == Span(s.start, s.end);
    }
    OrderedIsUnique(a, b);
  }

  /** That sequence. */
  ghost function TopLevelSpans(text: string): (spans: seq<Span>)
    ensures Found(text, spans, |text|)
  {
    SpansExist(text, |text|);
    var spans :| Found(text, spans, |text|);
    spans
  }

  lemma {:induction false} SpansExist(text: string, n: nat)
    requires n <= |text|
    ensures exists spans :: Found(text, spans, n)
  {
    if n == 0 {
      assert Found(text, [], 0);
    } else {
      SpansExist(text, n - 1);
      var spans :| Found(text, spans, n - 1);
      if i: nat :| TopLevel(text, i, n) {
        OneFound(text, spans, n - 1, i);
      } else {
        assert Found(text, spans, n);
      }
    }
  }

  method JsonObjectCandidates(text: string) returns (spans: seq<Span>)
    ensures Found(text, spans, |text|)
  {
    spans := [];
    var start: Option<nat> := None;
    var depth: nat, inString, escaped := 0, false, false;
    for index := 0 to |text|
      invariant escaped ==> inString
      invariant At(text, index) == Scan(depth, if escaped then Escaped else if inString then InString else Outside)
      invariant Found(text, spans, index)
      invariant depth > 0 ==>
        && start.Some? && start.value < index && text[start.value] == '{' && At(text, start.value) == START
        && forall k :: start.value < k <= index ==> At(text, k).depth > 0
    {
      var character := text[index];
      ghost var closes := At(text, index + 1).depth == 0 && depth > 0;
      if !closes {
        NothingFound(text, spans, index);
      }
      if inString {
        if escaped {
          escaped := false;
        } else if character == '\\' {
          escaped := true;
        } else if character == '"' {
          inString := false;
        }
      } else if character == '"' {
        inString := true;
      } else if character == '{' {
        if depth == 0 {
          start := Some(index);
        }
        depth := depth + 1;
      } else if character == '}' && depth > 0 {
        depth := depth - 1;
        if depth == 0 {
          OneFound(text, spans, index, start.value);
          spans := spans + [Span(start.value, index + 1)];
        }
      }
    }
  }

  lemma NothingFound(text: string, spans: seq<Span>, index: nat)
    requires index < |text| && Found(text, spans, index)
    requires !(At(text, index).depth > 0 && At(text, index + 1).depth == 0)
    ensures Found(text, spans, index + 1)
  {
    forall i: nat, j: nat | TopLevel(text, i, j) && j <= index + 1 ensures j <= index {
      assert i < index ==> At(text, index).depth > 0 || j <= index;
    }
  }

  lemma OneFound(text: string, spans: seq<Span>, index: nat, start: nat)
    requires index < |text| && Found(text, spans, index) && TopLevel(text, start, index + 1)
    ensures Found(text, spans + [Span(start, index + 1)], index + 1)
  {
    forall s | s in spans ensures s.end <= start {
      assert At(text, s.end).depth == 0;
    }
  }

  /** The counted end is the first later position at depth 0. */
  lemma {:induction false} CloseAtMeaning(text: string, i: nat, n: nat)
    requires i + n <= |text| && n > 0
    ensures CloseAt(text[i..], At(text, i), 0) == Some(n) <==>
            At(text, i + n).depth == 0 && forall k :: i < k < i + n ==> At(text, k).depth > 0
    decreases n
  {
    var t := text[i..];
    assert Next(At(text, i), t[0]) == At(text, i + 1);
    if n > 1 {
      assert t[1..] == text[i + 1..];
      if At(text, i + 1).depth > 0 {
        CloseAtMeaning(text, i + 1, n - 1);
      }
    }
  }

  /** The slice from a `{` to the first return to depth zero, or nothing. */
  method BalancedJsonObjectAt(text: string, start: nat) returns (end: Option<nat>)
    ensures end == ObjectEnd(text, start)
  {
    if start >= |text| || text[start] != '{' {
      return None;
    }
    var t := text[start..];
    var spans := JsonObjectCandidates(t);
    FirstSpanIsObject(t, spans);
    if spans == [] {
      return None;
    }
    return Some(start + spans[0].end);
  }

  lemma FirstSpanIsObject(t: string, spans: seq<Span>)
    requires t != [] && t[0] == '{' && Found(t, spans, |t|)
    ensures CloseAt(t, START, 0) == if spans == [] then None else Some(spans[0].end)
  {
    assert t[0..] == t && At(t, 0) == START;
    if CloseAt(t, START, 0).Some? {
      var n := CloseAt(t, START, 0).value;
      CloseAtMeaning(t, 0, n);
      assert TopLevel(t, 0, n);
      var k :| 0 <= k < |spans| && spans[k] == Span(0, n);
      assert spans[0] in spans && spans[0].end > spans[k].start;
      assert k == 0;
    } else if spans != [] {
      assert spans[0] in spans;
      AlwaysOpen(t, spans[0].end);
    }
  }

  /** Without a return to depth zero no later position is at depth zero. */
  lemma {:induction false} AlwaysOpen(t: string, n: nat)
    requires t != [] && t[0] == '{' && CloseAt(t, START, 0).None? && n <= |t|
    ensures n > 0 ==> At(t, n).depth > 0
  {
    if n > 0 {
      forall k | 0 < k < n ensures At(t, k).depth > 0 {
        AlwaysOpen(t, k);
      }
      assert t[0..] == t;
      CloseAtMeaning(t, 0, n);
    }
  }
}
