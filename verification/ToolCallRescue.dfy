/** Rescuing tool calls that a model wrote as text.

    Five strategies are tried in order on the text without its thinking blocks: tagged JSON, any
    JSON object, `name[ARGS]{..}`, `<function=..>` markup and `[TOOL_CALLS]name{..}`.  JSON decoding
    is an arbitrary partial function. */
module ToolCallRescue {
  import opened Wrappers
  import opened Json
  import opened Sequences
  import opened TextScan
  import opened ThinkingBlocks
  import opened JsonScan
  import opened NativeToolCalls

  type Decoder = string -> Option<Value>

  const FENCE := "```"

  function AfterFirstLine(text: string): string {
    match Find(text, 0, "\n") case Some(i) => text[i + 1..] case None => text
  }

  function WithoutFence(text: string): string {
    if |text| >= |FENCE| && OccursAt(text, |text| - |FENCE|, FENCE) then text[..|text| - |FENCE|] else text
  }

  function StripCodeFence(text: string): string {
    if !OccursAt(text, 0, FENCE) then text
    else Trim(WithoutFence(AfterFirstLine(text[|FENCE|..])), IsTrimmed)
  }

  lemma FirstLineGoes(line: string, rest: string)
    requires '\n' !in line
    ensures AfterFirstLine(line + "\n" + rest) == rest
  {
    forall i: nat | i < |line| ensures !OccursAt(line + "\n", i, "\n") {
      assert (line + "\n")[i..i + 1][0] == line[i];
    }
    SplitFinds(line, "\n", rest);
  }

  lemma FenceGoes(body: string, fence: string)
    requires fence == FENCE
    ensures WithoutFence(body + fence) == body
  {
    assert (body + fence)[|body|..|body| + |fence|] == fence && (body + fence)[..|body|] == body;
  }

  /** A fenced text loses its first line and its closing fence; any other text is left alone. */
  lemma FenceIsStripped(line: string, body: string, fence: string, text: string)
    requires '\n' !in line && fence == FENCE
    ensures StripCodeFence(fence + (line + "\n" + (body + fence))) == Trim(body, IsTrimmed)
    ensures !OccursAt(text, 0, fence) ==> StripCodeFence(text) == text
  {
    var inner := line + "\n" + (body + fence);
    assert (fence + inner)[0..|fence|] == fence && (fence + inner)[|fence|..] == inner;
    FirstLineGoes(line, body + fence);
    FenceGoes(body, fence);
  }

  // ----- Calls inside decoded text -----

  function DecodedCalls(text: string, tools: seq<string>, decode: Decoder): (calls: seq<NativeToolCall>)
    ensures forall c :: c in calls ==> c.name in tools
  {
    match decode(text) case Some(v) => NativeCalls(v, tools) case None => []
  }

  /** The calls of the given spans of `text`, in order. */
  function CallsInSpans(text: string, spans: seq<Span>, tools: seq<string>, decode: Decoder): (calls: seq<NativeToolCall>)
    requires forall s :: s in spans ==> s.start <= s.end <= |text|
    ensures forall c :: c in calls ==> c.name in tools
  {
    if spans == [] then []
    else DecodedCalls(text[spans[0].start..spans[0].end], tools, decode) + CallsInSpans(text, spans[1..], tools, decode)
  }

  // ----- JSON anywhere -----

  /** The whole text as one document if that yields calls, otherwise its top-level objects. */
  ghost function JsonCalls(text: string, tools: seq<string>, decode: Decoder): (calls: seq<NativeToolCall>)
    ensures forall c :: c in calls ==> c.name in tools
  {
    var cleaned := StripCodeFence(Trim(text, IsTrimmed));
    var whole := DecodedCalls(cleaned, tools, decode);
    if whole != [] then whole else CallsInSpans(cleaned, TopLevelSpans(cleaned), tools, decode)
  }

  /** The object in a span yields this call. */
  ghost predicate YieldsCall(text: string, s: Span, tools: seq<string>, decode: Decoder, c: NativeToolCall)
    requires s.start <= s.end <= |text|
  {
    var decoded := decode(text[s.start..s.end]);
    decoded.Some? && c in NativeCalls(decoded.value, tools)
  }

  lemma {:induction false} SpanCallsExactly(text: string, spans: seq<Span>, tools: seq<string>, decode: Decoder, c: NativeToolCall)
    requires forall s :: s in spans ==> s.start <= s.end <= |text|
    ensures c in CallsInSpans(text, spans, tools, decode) <==>
            exists s :: s in spans && YieldsCall(text, s, tools, decode, c)
  {
    if spans != [] {
      SpanCallsExactly(text, spans[1..], tools, decode, c);
      var first, later := spans[0], spans[1..];
      assert forall s :: s in spans <==> s == first || s in later;
      assert YieldsCall(text, first, tools, decode, c) <==> c in DecodedCalls(text[first.start..first.end], tools, decode);
      if s :| s in spans && YieldsCall(text, s, tools, decode, c) {
        assert s == first || s in later;
      }
    }
  }

  lemma {:induction false} SpanCallsInOrder(text: string, a: seq<Span>, b: seq<Span>, tools: seq<string>, decode: Decoder)
    requires forall s :: s in a + b ==> s.start <= s.end <= |text|
    ensures forall s :: s in a ==> s in a + b
    ensures forall s :: s in b ==> s in a + b
    ensures CallsInSpans(text, a + b, tools, decode) ==
            CallsInSpans(text, a, tools, decode) + CallsInSpans(text, b, tools, decode)
  {
    if a == [] {
      assert a + b == b;
    } else {
      assert (a + b)[0] == a[0] && (a + b)[1..] == a[1..] + b;
      SpanCallsInOrder(text, a[1..], b, tools, decode);
      Regroup(DecodedCalls(text[a[0].start..a[0].end], tools, decode), CallsInSpans(text, a[1..], tools, decode),
              CallsInSpans(text, b, tools, decode));
    }
  }

  /** The whole document goes first; otherwise a call comes from a top-level object. */
  lemma JsonCallsExactly(text: string, tools: seq<string>, decode: Decoder, c: NativeToolCall)
    ensures var cleaned := StripCodeFence(Trim(text, IsTrimmed));
      if decode(cleaned).Some? && NativeCalls(decode(cleaned).value, tools) != []
      then JsonCalls(text, tools, decode) == NativeCalls(decode(cleaned).value, tools)
      else c in JsonCalls(text, tools, decode) <==>
           exists i: nat, j: nat :: TopLevel(cleaned, i, j) && YieldsCall(cleaned, Span(i, j), tools, decode, c)
  {
    var cleaned := StripCodeFence(Trim(text, IsTrimmed));
    var spans := TopLevelSpans(cleaned);
    SpanCallsExactly(cleaned, spans, tools, decode, c);
    if s :| s in spans && YieldsCall(cleaned, s, tools, decode, c) {
      assert TopLevel(cleaned, s.start, s.end) && s == Span(s.start, s.end);
    }
  }

  method ExtractJsonToolCalls(text: string, tools: seq<string>, decode: Decoder) returns (calls: seq<NativeToolCall>)
    ensures calls == JsonCalls(text, tools, decode)
  {
    var cleaned := StripCodeFence(Trim(text, IsTrimmed));
    var decoded := decode(cleaned);
    if decoded.Some? {
      calls := NativeCalls(decoded.value, tools);
      if calls != [] {
        return;
      }
    }
    var spans := JsonObjectCandidates(cleaned);
    FoundIsUnique(cleaned, spans, TopLevelSpans(cleaned), |cleaned|);
    calls := CallsInSpans(cleaned, spans, tools, decode);
  }

  /** The second piece of every block. */
  function Bodies(blocks: seq<seq<string>>): seq<string>
    requires forall b :: b in blocks ==> |b| == 2
  {
    if blocks == [] then [] else [blocks[0][1]] + Bodies(blocks[1..])
  }

  lemma {:induction false} BodiesMean(blocks: seq<seq<string>>, k: nat)
    requires (forall b :: b in blocks ==> |b| == 2) && k < |blocks|
    ensures |Bodies(blocks)| == |blocks| && Bodies(blocks)[k] == blocks[k][1]
  {
    if |blocks| > 1 {
      BodiesMean(blocks[1..], if k > 0 then k - 1 else 0);
    }
  }

  /** The texts between the two `tags`. */
  function Tagged(text: string, tags: seq<string>): seq<string>
    requires |tags| == 2 && tags[0] != ""
  {
    Bodies(Split(text, tags).0)
  }

  lemma NextTagged(text: string, tags: seq<string>)
    requires |tags| == 2 && tags[0] != "" && Cut(text, tags).Some?
    ensures var (pieces, rest) := Cut(text, tags).value;
      Tagged(text, tags) == [pieces[1]] + Tagged(rest, tags)
  {
    var (pieces, rest) := Cut(text, tags).value;
    var later := Split(rest, tags).0;
    assert Split(text, tags).0 == [pieces] + later;
    assert ([pieces] + later)[1..] == later;
  }

  /** The bodies are the texts between the tags in the only split of the text. */
  lemma TaggedExactly(text: string, tags: seq<string>, bodies: seq<string>)
    requires |tags| == 2 && tags[0] != ""
    ensures bodies == Tagged(text, tags) <==>
            exists blocks, tail :: SplitsInto(text, tags, blocks, tail) && bodies == Bodies(blocks)
  {
    SplitAssembles(text, tags);
    if blocks, tail :| SplitsInto(text, tags, blocks, tail) && bodies == Bodies(blocks) {
      SplitIsUnique(text, tags, blocks, tail);
    }
  }

  /** The bodies of the blocks, of which the text is made in just one way. */
  method TaggedBodies(text: string, tags: seq<string>) returns (bodies: seq<string>)
    requires |tags| == 2 && tags[0] != ""
    ensures bodies == Tagged(text, tags)
    ensures exists blocks, tail :: SplitsInto(text, tags, blocks, tail) && bodies == Bodies(blocks)
  {
    bodies := [];
    var remainder := text;
    while true
      invariant Tagged(text, tags) == bodies + Tagged(remainder, tags)
      decreases |remainder|
    {
      var next := Cut(remainder, tags);
      if next.None? {
        break;
      }
      NextTagged(remainder, tags);
      Regroup(bodies, [next.value.0[1]], Tagged(next.value.1, tags));
      bodies := bodies + [next.value.0[1]];
      remainder := next.value.1;
    }
    TaggedExactly(text, tags, bodies);
  }

  ghost function CallsInBodies(bodies: seq<string>, tools: seq<string>, decode: Decoder): (calls: seq<NativeToolCall>)
    ensures forall c :: c in calls ==> c.name in tools
  {
    if bodies == [] then [] else JsonCalls(bodies[0], tools, decode) + CallsInBodies(bodies[1..], tools, decode)
  }

  // ----- A name, a marker and an object -----

  datatype Family = Rehearsal | Mistral

  /** What the scan meets next: nothing, a marker without a call, or a named object. */
  datatype Site = NoMore | Skip(next: nat) | Call(name: string, start: nat, end: nat)

  function Marker(family: Family): string {
    match family case Rehearsal => "[ARGS]" case Mistral => "[TOOL_CALLS]"
  }

  /** `name [ARGS] {..}`: the identifier before the marker, the object after it. */
  function RehearsalAt(text: string, marker: nat): Site
    requires marker + |Marker(Rehearsal)| <= |text|
  {
    var after := marker + |Marker(Rehearsal)|;
    var nameEnd := RunBack(text[..marker], marker, IsAsciiSpace);
    var nameStart := RunBack(text[..marker], nameEnd, IsIdentifier);
    var start := RunAhead(text, after, IsAsciiSpace);
    match ObjectEnd(text, start)
    case Some(end) => if nameStart < nameEnd then Call(text[nameStart..nameEnd], start, end) else Skip(after)
    case None => Skip(after)
  }

  /** `[TOOL_CALLS] name {..}`. */
  function MistralAt(text: string, marker: nat): Site
    requires marker + |Marker(Mistral)| <= |text|
  {
    var after := marker + |Marker(Mistral)|;
    var nameStart := RunAhead(text, after, IsAsciiSpace);
    var nameEnd := RunAhead(text, nameStart, IsIdentifier);
    if nameStart == nameEnd then Skip(after)
    else
      var start := RunAhead(text, nameEnd, IsAsciiSpace);
      match ObjectEnd(text, start)
      case Some(end) => Call(text[nameStart..nameEnd], start, end)
      case None => Skip(nameEnd)
  }

  /** The site of the marker at a position. */
  function SiteAt(family: Family, text: string, marker: nat): (site: Site)
    requires OccursAt(text, marker, Marker(family))
    ensures !site.NoMore?
    ensures site.Skip? ==> marker < site.next <= |text|
    ensures site.Call? ==> marker < site.start < site.end <= |text| && ObjectEnd(text, site.start) == Some(site.end)
  {
    match family case Rehearsal => RehearsalAt(text, marker) case Mistral => MistralAt(text, marker)
  }

  /** Every site lies ahead, and the scan resumes just past the object or the marker. */
  function NextSite(family: Family, text: string, offset: nat): (site: Site)
    requires offset <= |text|
    ensures site.Skip? ==> offset < site.next <= |text|
    ensures site.Call? ==> offset < site.start < site.end <= |text| && ObjectEnd(text, site.start) == Some(site.end)
  {
    match Find(text, offset, Marker(family))
    case None => NoMore
    case Some(marker) => SiteAt(family, text, marker)
  }

  function CallAt(text: string, site: Site, tools: seq<string>, decode: Decoder): (calls: seq<NativeToolCall>)
    requires site.Call? && site.start <= site.end <= |text|
    ensures forall c :: c in calls ==> c.name in tools
  {
    match decode(text[site.start..site.end])
    case Some(Object(fields)) =>
      if site.name in tools then [NativeToolCall(None, Some("function"), site.name, Object(fields))] else []
    case _ => []
  }

  function MarkedCalls(family: Family, text: string, offset: nat, tools: seq<string>, decode: Decoder): (calls: seq<NativeToolCall>)
    requires offset <= |text|
    ensures forall c :: c in calls ==> c.name in tools
    decreases |text| - offset
  {
    var site := NextSite(family, text, offset);
    match site
    case NoMore => []
    case Skip(next) => MarkedCalls(family, text, next, tools, decode)
    case Call(_, _, end) => CallAt(text, site, tools, decode) + MarkedCalls(family, text, end, tools, decode)
  }

  method ParseMarkedCalls(family: Family, text: string, tools: seq<string>, decode: Decoder) returns (calls: seq<NativeToolCall>)
    ensures calls == MarkedCalls(family, text, 0, tools, decode)
  {
    calls := [];
    var offset := 0;
    while true
      invariant offset <= |text|
      invariant MarkedCalls(family, text, 0, tools, decode) == calls + MarkedCalls(family, text, offset, tools, decode)
      decreases |text| - offset
    {
      var site := NextSite(family, text, offset);
      match site {
        case NoMore =>
          return;
        case Skip(next) =>
          offset := next;
        case Call(_, _, end) =>
          var more := CallAt(text, site, tools, decode);
          Regroup(calls, more, MarkedCalls(family, text, end, tools, decode));
          calls := calls + more;
          offset := end;
      }
    }
  }

  /** The named objects that a marker scan meets. */
  function Sites(family: Family, text: string, offset: nat): (sites: seq<Site>)
    requires offset <= |text|
    ensures forall s :: s in sites ==> s.Call? && offset < s.start < s.end <= |text|
    decreases |text| - offset
  {
    var site := NextSite(family, text, offset);
    match site
    case NoMore => []
    case Skip(next) => Sites(family, text, next)
    case Call(_, _, end) => [site] + Sites(family, text, end)
  }

  /** They hold balanced objects, in order and disjoint. */
  lemma {:induction false} SitesAdvance(family: Family, text: string, offset: nat)
    requires offset <= |text|
    ensures Disjoint(text, Sites(family, text, offset))
    decreases |text| - offset
  {
    var site := NextSite(family, text, offset);
    match site
    case NoMore =>
    case Skip(next) => SitesAdvance(family, text, next);
    case Call(_, _, end) =>
      SitesAdvance(family, text, end);
      DisjointCons(text, site, Sites(family, text, end));
  }

  ghost predicate Disjoint(text: string, sites: seq<Site>) {
    && (forall s :: s in sites ==> s.Call? && ObjectEnd(text, s.start) == Some(s.end))
    && (forall a, b :: 0 <= a < b < |sites| ==> sites[a].Call? && sites[b].Call? && sites[a].end < sites[b].start)
  }

  lemma DisjointCons(text: string, site: Site, later: seq<Site>)
    requires Disjoint(text, later) && site.Call? && ObjectEnd(text, site.start) == Some(site.end)
    requires forall s :: s in later ==> s.Call? && site.end < s.start
    ensures Disjoint(text, [site] + later)
  {
  }

  /** The object decodes to a JSON object under the name of a known tool. */
  predicate Rescues(text: string, s: Site, tools: seq<string>, decode: Decoder) {
    && s.Call? && s.start <= s.end <= |text| && s.name in tools
    && decode(text[s.start..s.end]).Some? && decode(text[s.start..s.end]).value.Object?
  }

  function RescuingSites(text: string, sites: seq<Site>, tools: seq<string>, decode: Decoder): (found: seq<Site>)
    ensures forall s :: s in found <==> s in sites && Rescues(text, s, tools, decode)
  {
    if sites == [] then []
    else (if Rescues(text, sites[0], tools, decode) then [sites[0]] else [])
         + RescuingSites(text, sites[1..], tools, decode)
  }

  /** One call for each site, in order: the tool it names, with the decoded object. */
  ghost predicate OneCallPerSite(text: string, sites: seq<Site>, decode: Decoder, calls: seq<NativeToolCall>) {
    && |calls| == |sites|
    && forall k :: 0 <= k < |calls| ==>
         && sites[k].Call? && sites[k].start <= sites[k].end <= |text|
         && decode(text[sites[k].start..sites[k].end]) == Some(calls[k].arguments)
         && calls[k] == NativeToolCall(None, Some("function"), sites[k].name, calls[k].arguments)
  }

  /** The scan rescues one call for each of those objects that decodes to a JSON object under the
      name of a known tool, in order, and no other. */
  lemma {:induction false} RescuedExactlyAtSites(family: Family, text: string, offset: nat, tools: seq<string>, decode: Decoder)
    requires offset <= |text|
    ensures OneCallPerSite(text, RescuingSites(text, Sites(family, text, offset), tools, decode), decode,
                           MarkedCalls(family, text, offset, tools, decode))
    decreases |text| - offset
  {
    var site := NextSite(family, text, offset);
    match site
    case NoMore =>
    case Skip(next) => RescuedExactlyAtSites(family, text, next, tools, decode);
    case Call(_, _, end) =>
      RescuedExactlyAtSites(family, text, end, tools, decode);
      var later := Sites(family, text, end);
      assert ([site] + later)[1..] == later;
      OneMoreSite(text, site, RescuingSites(text, later, tools, decode), tools, decode,
                  MarkedCalls(family, text, end, tools, decode));
  }

  lemma OneMoreSite(text: string, site: Site, sites: seq<Site>, tools: seq<string>, decode: Decoder, calls: seq<NativeToolCall>)
    requires OneCallPerSite(text, sites, decode, calls) && site.Call? && site.start <= site.end <= |text|
    ensures OneCallPerSite(text, (if Rescues(text, site, tools, decode) then [site] else []) + sites, decode,
                           CallAt(text, site, tools, decode) + calls)
  {
    if !Rescues(text, site, tools, decode) {
      assert CallAt(text, site, tools, decode) == [];
      assert [] + sites == sites && [] + calls == calls;
    }
  }

  // ----- How a site stands in the text -----

  ghost predicate AllIn(text: string, from: nat, to: nat, p: char -> bool) {
    from <= to <= |text| && forall i :: from <= i < to ==> p(text[i])
  }

  /** The name stands at `a..b`: before the marker for the one family, after it for the other, with
      nothing but space between name, marker and object. */
  ghost predicate StandsAt(family: Family, text: string, marker: nat, site: Site, a: nat, b: nat) {
    var after := marker + |Marker(family)|;
    && site.Call? && a < b <= |text| && text[a..b] == site.name && AllIn(text, a, b, IsIdentifier)
    && ObjectEnd(text, site.start) == Some(site.end)
    && match family
       case Rehearsal =>
         && (a > 0 ==> !IsIdentifier(text[a - 1]))
         && AllIn(text, b, marker, IsAsciiSpace) && AllIn(text, after, site.start, IsAsciiSpace)
       case Mistral => AllIn(text, after, a, IsAsciiSpace) && AllIn(text, b, site.start, IsAsciiSpace)
  }

  lemma RehearsalStands(text: string, marker: nat) returns (a: nat, b: nat)
    requires OccursAt(text, marker, Marker(Rehearsal)) && SiteAt(Rehearsal, text, marker).Call?
    ensures StandsAt(Rehearsal, text, marker, SiteAt(Rehearsal, text, marker), a, b)
  {
    var front := text[..marker];
    b := RunBack(front, marker, IsAsciiSpace);
    a := RunBack(front, b, IsIdentifier);
    assert forall i :: 0 <= i < marker ==> front[i] == text[i];
  }

  lemma MistralStands(text: string, marker: nat) returns (a: nat, b: nat)
    requires OccursAt(text, marker, Marker(Mistral)) && SiteAt(Mistral, text, marker).Call?
    ensures StandsAt(Mistral, text, marker, SiteAt(Mistral, text, marker), a, b)
  {
    a := RunAhead(text, marker + |Marker(Mistral)|, IsAsciiSpace);
    b := RunAhead(text, a, IsIdentifier);
  }

  /** Where the scan goes on after a site, or where its object starts. */
  function Resumes(site: Site): nat {
    match site case NoMore => 0 case Skip(next) => next case Call(_, start, _) => start
  }

  lemma NoBracketSkipped(family: Family, text: string, marker: nat, k: nat)
    requires OccursAt(text, marker, Marker(family)) && marker < k < Resumes(SiteAt(family, text, marker))
    ensures text[k] != '['
  {
    var n := marker + |Marker(family)|;
    if k < n {
      assert text[marker..n][k - marker] == text[k];
      assert Marker(family)[k - marker] != '[';
    }
  }

  /** Up to there no other marker begins. */
  lemma NoMarkerSkipped(family: Family, text: string, marker: nat, k: nat)
    requires OccursAt(text, marker, Marker(family)) && OccursAt(text, k, Marker(family)) && marker < k
    ensures Resumes(SiteAt(family, text, marker)) <= k
  {
    assert text[k..k + |Marker(family)|][0] == text[k] && Marker(family)[0] == '[';
    if k < Resumes(SiteAt(family, text, marker)) {
      NoBracketSkipped(family, text, marker, k);
    }
  }

  /** A call is among the sites, or position `m` lies inside the object of one. */
  ghost predicate Accounts(sites: seq<Site>, call: Site, m: nat) {
    call in sites || exists s :: s in sites && s.Call? && s.start <= m < s.end
  }

  lemma AccountsMore(site: Site, later: seq<Site>, call: Site, m: nat)
    requires Accounts(later, call, m) || site == call || (site.Call? && site.start <= m < site.end)
    ensures Accounts([site] + later, call, m)
  {
    assert forall s :: s in [site] + later <==> s == site || s in later;
  }

  lemma FirstMarker(text: string, offset: nat, m: nat, pat: string) returns (first: nat)
    requires offset <= m && OccursAt(text, m, pat)
    ensures Find(text, offset, pat) == Some(first) && first <= m && OccursAt(text, first, pat)
  {
    first := Find(text, offset, pat).value;
  }

  lemma NextSiteAt(family: Family, text: string, offset: nat, first: nat)
    requires offset <= |text| && Find(text, offset, Marker(family)) == Some(first)
    ensures NextSite(family, text, offset) == SiteAt(family, text, first)
  {
  }

  /** The next site is that of the marker at `m`, or lies before it. */
  lemma NextSiteIsBefore(family: Family, text: string, offset: nat, m: nat)
    requires offset <= m && OccursAt(text, m, Marker(family))
    ensures var site := NextSite(family, text, offset);
      !site.NoMore? && (site == SiteAt(family, text, m) || Resumes(site) <= m)
  {
    var first := FirstMarker(text, offset, m, Marker(family));
    NextSiteAt(family, text, offset, first);
    if first < m {
      NoMarkerSkipped(family, text, first, m);
    }
  }

  /** No marker is overlooked: one that makes a call is that call's site, or stands inside an object
      that the scan consumed for another. */
  lemma {:induction false} SitesAreComplete(family: Family, text: string, offset: nat, m: nat, call: Site)
    requires offset <= m && OccursAt(text, m, Marker(family)) && SiteAt(family, text, m) == call && call.Call?
    ensures Accounts(Sites(family, text, offset), call, m)
    decreases |text| - offset
  {
    NextSiteIsBefore(family, text, offset, m);
    var site := NextSite(family, text, offset);
    match site
    case Skip(next) => SitesAreComplete(family, text, next, m, call);
    case Call(_, start, end) =>
      if end <= m {
        SitesAreComplete(family, text, end, m, call);
      }
      AccountsMore(site, Sites(family, text, end), call, m);
  }

  // ----- Parameters of function markup -----

  const PARAMETER := "<parameter="
  const PARAMETER_END := "</parameter>"

  datatype Parameter = Parameter(key: string, raw: string)

  /** A parameter from the text of its tag and the text after it. */
  function MakeParameter(key: string, value: string): Parameter {
    Parameter(Trim(key, IsTrimmed), Trim(value, c => c == '\n'))
  }

  /** Key and value without the space around them; a value keeps all but its line breaks. */
  lemma ParameterMeans(key: string, value: string)
    ensures var p := MakeParameter(key, value);
      TrimsTo(key, IsTrimmed, p.key) && TrimsTo(value, c => c == '\n', p.raw)
  {
    TrimTrims(key, IsTrimmed);
    TrimTrims(value, c => c == '\n');
  }

  /** Where a parameter's value ends: at the next closing tag, at the next parameter if nothing
      is closed any more, or at the end. */
  function ValueEnd(text: string): (n: nat)
    ensures n <= |text|
  {
    match OrElse(Find(text, 0, PARAMETER_END), Find(text, 0, PARAMETER))
    case Some(i) => i
    case None => |text|
  }

  function DropPrefix(text: string, prefix: string): (rest: string)
    ensures |rest| <= |text|
  {
    if OccursAt(text, 0, prefix) then text[|prefix|..] else text
  }

  function ParameterValue(raw: string, decode: Decoder): Value {
    match decode(raw) case Some(v) => v case None => Str(raw)
  }

  const OPENED := [PARAMETER, ">"]

  /** The parameters that the scan meets, in order. */
  function Parameters(text: string): seq<Parameter>
    decreases |text|
  {
    match Cut(text, OPENED)
    case None => []
    case Some((pieces, rest)) =>
      var end := ValueEnd(rest);
      [MakeParameter(pieces[1], rest[..end])] + Parameters(DropPrefix(rest[end..], PARAMETER_END))
  }

  /** The keys are those of the parameters, and the last parameter of a key gives its value. */
  ghost predicate LastWins(args: map<string, Value>, parameters: seq<Parameter>, decode: Decoder) {
    && (forall key :: key in args <==> HasKey(parameters, key))
    && forall i :: 0 <= i < |parameters| && IsLastOfKey(parameters, i) ==>
         match decode(parameters[i].raw)
         case Some(v) => args[parameters[i].key] == v
         case None => args[parameters[i].key] == Str(parameters[i].raw)
  }

  ghost predicate HasKey(parameters: seq<Parameter>, key: string) {
    exists i :: 0 <= i < |parameters| && parameters[i].key == key
  }

  ghost predicate IsLastOfKey(parameters: seq<Parameter>, i: nat)
    requires i < |parameters|
  {
    forall j :: i < j < |parameters| ==> parameters[j].key != parameters[i].key
  }

  function Bind(parameters: seq<Parameter>, decode: Decoder): map<string, Value> {
    if parameters == [] then map[]
    else
      var last := parameters[|parameters| - 1];
      Bind(parameters[..|parameters| - 1], decode)[last.key := ParameterValue(last.raw, decode)]
  }

  lemma {:induction false} BindLastWins(parameters: seq<Parameter>, decode: Decoder)
    ensures LastWins(Bind(parameters, decode), parameters, decode)
  {
    if parameters != [] {
      var front, last := parameters[..|parameters| - 1], parameters[|parameters| - 1];
      assert parameters == front + [last];
      BindLastWins(front, decode);
      AddParameter(Bind(front, decode), front, last, decode);
    }
  }

  lemma KeysOfMore(front: seq<Parameter>, last: Parameter, key: string)
    ensures HasKey(front + [last], key) <==> HasKey(front, key) || key == last.key
  {
    var all := front + [last];
    assert all[|front|] == last;
    if HasKey(front, key) {
      var i :| 0 <= i < |front| && front[i].key == key;
      assert all[i].key == key;
    }
  }

  lemma AddParameter(args: map<string, Value>, front: seq<Parameter>, last: Parameter, decode: Decoder)
    requires LastWins(args, front, decode)
    ensures LastWins(args[last.key := ParameterValue(last.raw, decode)], front + [last], decode)
  {
    var all, after := front + [last], args[last.key := ParameterValue(last.raw, decode)];
    forall key ensures key in after <==> HasKey(all, key) {
      KeysOfMore(front, last, key);
    }
    forall i | 0 <= i < |all| && IsLastOfKey(all, i)
      ensures after[all[i].key] == ParameterValue(all[i].raw, decode)
    {
      if i < |front| {
        assert all[|front|].key != all[i].key;
        assert forall j :: i < j < |front| ==> all[j] == front[j];
        assert IsLastOfKey(front, i);
      }
    }
  }

  lemma {:induction false} LastOfKey(parameters: seq<Parameter>, key: string) returns (i: nat)
    requires HasKey(parameters, key)
    ensures i < |parameters| && parameters[i].key == key && IsLastOfKey(parameters, i)
  {
    var n := |parameters| - 1;
    if parameters[n].key == key {
      i := n;
    } else {
      var j :| 0 <= j < |parameters| && parameters[j].key == key;
      assert parameters[..n][j].key == key;
      i := LastOfKey(parameters[..n], key);
    }
  }

  /** That says all about the bindings. */
  lemma LastWinsDetermines(args: map<string, Value>, parameters: seq<Parameter>, decode: Decoder)
    ensures LastWins(args, parameters, decode) <==> args == Bind(parameters, decode)
  {
    BindLastWins(parameters, decode);
    if LastWins(args, parameters, decode) {
      forall key | key in args ensures key in Bind(parameters, decode) && args[key] == Bind(parameters, decode)[key] {
        var i := LastOfKey(parameters, key);
      }
    }
  }

  /** Each key is bound to the value of its last parameter. */
  method ParseParameters(body: string, decode: Decoder) returns (args: map<string, Value>)
    ensures args == Bind(Parameters(body), decode)
    ensures LastWins(args, Parameters(body), decode)
  {
    args := map[];
    var parameters := body;
    ghost var met: seq<Parameter> := [];
    while true
      invariant args == Bind(met, decode) && Parameters(body) == met + Parameters(parameters)
      decreases |parameters|
    {
      var tag := Cut(parameters, OPENED);
      if tag.None? {
        break;
      }
      var (pieces, rest) := tag.value;
      var valueEnd := ValueEnd(rest);
      var p := MakeParameter(pieces[1], rest[..valueEnd]);
      args := args[p.key := ParameterValue(p.raw, decode)];
      parameters := DropPrefix(rest[valueEnd..], PARAMETER_END);
      Regroup(met, [p], Parameters(parameters));
      assert (met + [p])[..|met|] == met;
      met := met + [p];
    }
    assert met + [] == met;
    BindLastWins(met, decode);
  }

  // ----- Where parameters stand in the text -----

  const CLOSED := OPENED + [PARAMETER_END]

  /** Closed parameters: the tag and the text up to the closing tag. */
  function ClosedParameters(blocks: seq<seq<string>>): seq<Parameter>
    requires forall b :: b in blocks ==> |b| == 3
  {
    if blocks == [] then [] else [MakeParameter(blocks[0][1], blocks[0][2])] + ClosedParameters(blocks[1..])
  }

  /** Parameters that nothing closes: the tag and the text up to the next one. */
  function OpenParameters(blocks: seq<seq<string>>, tail: string): seq<Parameter>
    requires forall b :: b in blocks ==> |b| == 2
  {
    if blocks == [] then []
    else [MakeParameter(blocks[0][1], if |blocks| > 1 then blocks[1][0] else BeforeParameter(tail))]
         + OpenParameters(blocks[1..], tail)
  }

  function BeforeParameter(text: string): string {
    match Find(text, 0, PARAMETER) case Some(i) => text[..i] case None => text
  }

  /** Text before the next parameter does not matter. */
  lemma ParametersSkip(text: string)
    ensures var before := BeforeParameter(text);
      |before| <= |text| && Parameters(text[|before|..]) == Parameters(text)
  {
    var before := BeforeParameter(text);
    if Cut(text, OPENED).Some? {
      CutFromFirst(text, OPENED);
    } else if Cut(text[|before|..], OPENED).Some? {
      CutDecides(text[|before|..], OPENED);
      OccurLater(text, |before|, OPENED);
      CutDecides(text, OPENED);
    }
  }

  /** A parameter that is closed. */
  lemma ClosedParameter(text: string)
    requires Cut(text, CLOSED).Some?
    ensures var (pieces, rest) := Cut(text, CLOSED).value;
      Parameters(text) == [MakeParameter(pieces[1], pieces[2])] + Parameters(rest)
  {
    CutOneLess(text, OPENED, PARAMETER_END);
    CutOneMore(text, OPENED, PARAMETER_END);
    var rest := Cut(text, OPENED).value.1;
    var end := Find(rest, 0, PARAMETER_END).value;
    OccursShifted(rest, end, 0, PARAMETER_END);
    assert rest[end..][|PARAMETER_END|..] == rest[end + |PARAMETER_END|..];
  }

  lemma NothingCloses(text: string)
    requires Find(text, 0, PARAMETER_END) == None
    ensures Cut(text, CLOSED) == None
    ensures ValueEnd(text) == |BeforeParameter(text)| && text[..ValueEnd(text)] == BeforeParameter(text)
    ensures DropPrefix(text[ValueEnd(text)..], PARAMETER_END) == text[ValueEnd(text)..]
  {
    CutNeedsLast(text, OPENED, PARAMETER_END);
    OccursShifted(text, ValueEnd(text), 0, PARAMETER_END);
  }

  /** A parameter after which nothing is closed. */
  lemma OpenParameter(text: string)
    requires Cut(text, CLOSED) == None && Cut(text, OPENED).Some?
    ensures var (pieces, rest) := Cut(text, OPENED).value;
      Cut(rest, CLOSED) == None && Parameters(text) == [MakeParameter(pieces[1], BeforeParameter(rest))] + Parameters(rest)
  {
    var rest := Cut(text, OPENED).value.1;
    if Find(rest, 0, PARAMETER_END).Some? {
      CutOneMore(text, OPENED, PARAMETER_END);
    }
    NothingCloses(rest);
    ParametersSkip(rest);
  }

  lemma {:induction false} OpenOnly(text: string)
    requires Cut(text, CLOSED) == None
    ensures var (open, rest) := Split(text, OPENED);
      Parameters(text) == OpenParameters(open, rest)
    decreases |text|
  {
    if Cut(text, OPENED).Some? {
      var (pieces, rest) := Cut(text, OPENED).value;
      OpenParameter(text);
      OpenOnly(rest);
    }
  }

  ghost function DelimitedParameters(text: string): seq<Parameter> {
    var (closed, tail) := Split(text, CLOSED);
    var (open, rest) := Split(tail, OPENED);
    ClosedParameters(closed) + OpenParameters(open, rest)
  }

  lemma ClosedInFront(text: string)
    requires Cut(text, CLOSED).Some?
    ensures var (pieces, rest) := Cut(text, CLOSED).value;
      DelimitedParameters(text) == [MakeParameter(pieces[1], pieces[2])] + DelimitedParameters(rest)
  {
    var (pieces, rest) := Cut(text, CLOSED).value;
    var (closed, tail) := Split(rest, CLOSED);
    var (open, after) := Split(tail, OPENED);
    assert Split(text, CLOSED) == ([pieces] + closed, tail);
    assert ([pieces] + closed)[1..] == closed;
    Regroup([MakeParameter(pieces[1], pieces[2])], ClosedParameters(closed), OpenParameters(open, after));
  }

  lemma NoneClosed(text: string)
    requires Cut(text, CLOSED) == None
    ensures Parameters(text) == DelimitedParameters(text)
  {
    OpenOnly(text);
    assert Split(text, CLOSED) == ([], text);
  }

  /** The parameters are the closed ones and then, once nothing is closed any more, the open ones. */
  lemma {:induction false} ParametersAreDelimited(text: string)
    ensures Parameters(text) == DelimitedParameters(text)
    decreases |text|
  {
    if Cut(text, CLOSED).None? {
      NoneClosed(text);
    } else {
      ClosedParameter(text);
      ClosedInFront(text);
      ParametersAreDelimited(Cut(text, CLOSED).value.1);
    }
  }

  // ----- Function markup -----

  datatype Element = Element(name: string, body: string)

  function ElementCall(e: Element, decode: Decoder): NativeToolCall {
    NativeToolCall(None, Some("function"), e.name, Object(Bind(Parameters(e.body), decode)))
  }

  /** A block is the text before an element, the text of its tag and its body. */
  function ElementOf(block: seq<string>): Element
    requires |block| == 3
  {
    Element(Trim(block[1], IsTrimmed), block[2])
  }

  /** The elements that name a known tool, in order. */
  function KnownElements(blocks: seq<seq<string>>, tools: seq<string>): seq<Element>
    requires forall b :: b in blocks ==> |b| == 3
  {
    if blocks == [] then [] else Known(ElementOf(blocks[0]), tools) + KnownElements(blocks[1..], tools)
  }

  lemma ElementMeans(block: seq<string>)
    requires |block| == 3
    ensures TrimsTo(block[1], IsTrimmed, ElementOf(block).name) && ElementOf(block).body == block[2]
  {
    TrimTrims(block[1], IsTrimmed);
  }

  /** Elements of unknown tools are left out, and the rest keeps its order. */
  lemma {:induction false} KnownElementsInOrder(a: seq<seq<string>>, b: seq<seq<string>>, tools: seq<string>)
    requires (forall x :: x in a ==> |x| == 3) && (forall x :: x in b ==> |x| == 3)
    ensures forall x :: x in a + b ==> |x| == 3
    ensures KnownElements(a + b, tools) == KnownElements(a, tools) + KnownElements(b, tools)
    ensures |a| == 1 ==> KnownElements(a, tools) == if ElementOf(a[0]).name in tools then [ElementOf(a[0])] else []
  {
    if a == [] {
      assert a + b == b;
    } else {
      assert (a + b)[0] == a[0] && (a + b)[1..] == a[1..] + b;
      KnownElementsInOrder(a[1..], b, tools);
      Regroup(Known(ElementOf(a[0]), tools), KnownElements(a[1..], tools), KnownElements(b, tools));
    }
  }

  function Known(e: Element, tools: seq<string>): seq<Element> {
    if e.name in tools then [e] else []
  }

  function CallsOf(elements: seq<Element>, decode: Decoder): seq<NativeToolCall> {
    if elements == [] then [] else [ElementCall(elements[0], decode)] + CallsOf(elements[1..], decode)
  }

  /** Each element makes one call of the tool it names, with the last value of each parameter. */
  ghost predicate OneCallEach(calls: seq<NativeToolCall>, elements: seq<Element>, decode: Decoder) {
    |calls| == |elements| && forall k :: 0 <= k < |calls| ==> IsCallOf(calls[k], elements[k], decode)
  }

  ghost predicate IsCallOf(call: NativeToolCall, e: Element, decode: Decoder) {
    && call.id == None && call.callType == Some("function") && call.name == e.name
    && call.arguments.Object? && LastWins(call.arguments.fields, Parameters(e.body), decode)
  }

  lemma ElementMakesCall(e: Element, decode: Decoder)
    ensures IsCallOf(ElementCall(e, decode), e, decode)
  {
    BindLastWins(Parameters(e.body), decode);
  }

  lemma {:induction false} CallsOfElements(elements: seq<Element>, decode: Decoder)
    ensures OneCallEach(CallsOf(elements, decode), elements, decode)
  {
    if elements != [] {
      CallsOfElements(elements[1..], decode);
      ElementMakesCall(elements[0], decode);
    }
  }

  lemma {:induction false} CallsOfConcat(a: seq<Element>, b: seq<Element>, decode: Decoder)
    ensures CallsOf(a + b, decode) == CallsOf(a, decode) + CallsOf(b, decode)
  {
    if a == [] {
      assert a + b == b;
    } else {
      assert (a + b)[0] == a[0] && (a + b)[1..] == a[1..] + b;
      CallsOfConcat(a[1..], b, decode);
      Regroup([ElementCall(a[0], decode)], CallsOf(a[1..], decode), CallsOf(b, decode));
    }
  }

  /** The elements of known tools in a text: `tags` open an element, end its name and close it. */
  function MarkupElements(text: string, tags: seq<string>, tools: seq<string>): seq<Element>
    requires |tags| == 3 && tags[0] != ""
  {
    KnownElements(Split(text, tags).0, tools)
  }

  lemma NextElement(text: string, tags: seq<string>, tools: seq<string>)
    requires |tags| == 3 && tags[0] != "" && Cut(text, tags).Some?
    ensures var (block, rest) := Cut(text, tags).value;
      MarkupElements(text, tags, tools) == Known(ElementOf(block), tools) + MarkupElements(rest, tags, tools)
  {
    var (block, rest) := Cut(text, tags).value;
    var later := Split(rest, tags).0;
    assert Split(text, tags).0 == [block] + later;
    assert ([block] + later)[1..] == later;
  }

  method ParseElements(text: string, tags: seq<string>, tools: seq<string>, decode: Decoder) returns (calls: seq<NativeToolCall>)
    requires |tags| == 3 && tags[0] != ""
    ensures calls == CallsOf(MarkupElements(text, tags, tools), decode)
  {
    calls := [];
    var remainder := text;
    ghost var met: seq<Element> := [];
    while true
      invariant MarkupElements(text, tags, tools) == met + MarkupElements(remainder, tags, tools)
      invariant calls == CallsOf(met, decode)
      decreases |remainder|
    {
      var next := Cut(remainder, tags);
      if next.None? {
        assert met + [] == met;
        return;
      }
      NextElement(remainder, tags, tools);
      var e := ElementOf(next.value.0);
      remainder := next.value.1;
      Regroup(met, Known(e, tools), MarkupElements(remainder, tags, tools));
      var more := ParseElement(e, tools, decode);
      CallsOfConcat(met, Known(e, tools), decode);
      calls := calls + more;
      met := met + Known(e, tools);
    }
  }

  method ParseElement(e: Element, tools: seq<string>, decode: Decoder) returns (calls: seq<NativeToolCall>)
    ensures calls == CallsOf(Known(e, tools), decode)
  {
    if e.name !in tools {
      return [];
    }
    var args := ParseParameters(e.body, decode);
    calls := [NativeToolCall(None, Some("function"), e.name, Object(args))];
    assert [e][1..] == [];
  }

  const FUNCTION := ["<function=", ">", "</function>"]

  lemma {:induction false} KnownNames(blocks: seq<seq<string>>, tools: seq<string>)
    requires forall b :: b in blocks ==> |b| == 3
    ensures forall k :: 0 <= k < |KnownElements(blocks, tools)| ==> KnownElements(blocks, tools)[k].name in tools
  {
    if blocks != [] {
      KnownNames(blocks[1..], tools);
    }
  }

  function MarkupCalls(text: string, tools: seq<string>, decode: Decoder): (calls: seq<NativeToolCall>)
    ensures forall c :: c in calls ==> c.name in tools
  {
    CallsOfElements(MarkupElements(text, FUNCTION, tools), decode);
    KnownNames(Split(text, FUNCTION).0, tools);
    CallsOf(MarkupElements(text, FUNCTION, tools), decode)
  }

  /** One call for each element of a known tool, in order, of the elements of which the text is
      made in just one way. */
  method ParseMarkupCalls(text: string, tools: seq<string>, decode: Decoder) returns (calls: seq<NativeToolCall>)
    ensures calls == MarkupCalls(text, tools, decode)
    ensures exists blocks, tail :: SplitsInto(text, FUNCTION, blocks, tail)
              && OneCallEach(calls, KnownElements(blocks, tools), decode)
  {
    calls := ParseElements(text, FUNCTION, tools, decode);
    SplitAssembles(text, FUNCTION);
    CallsOfElements(MarkupElements(text, FUNCTION, tools), decode);
  }

  // ----- The strategies in order -----

  const STRATEGIES: nat := 5

  const TOOL_CALL := ["<tool_call>", "</tool_call>"]

  /** The JSON calls between the tags. */
  ghost function TaggedCalls(text: string, tools: seq<string>, decode: Decoder): (calls: seq<NativeToolCall>)
    ensures forall c :: c in calls ==> c.name in tools
  {
    CallsInBodies(Tagged(text, TOOL_CALL), tools, decode)
  }

  ghost function Strategy(k: nat, text: string, tools: seq<string>, decode: Decoder): (calls: seq<NativeToolCall>)
    requires k < STRATEGIES
    ensures forall c :: c in calls ==> c.name in tools
  {
    match k
    case 0 => TaggedCalls(text, tools, decode)
    case 1 => JsonCalls(text, tools, decode)
    case 2 => MarkedCalls(Rehearsal, text, 0, tools, decode)
    case 3 => MarkupCalls(text, tools, decode)
    case _ => MarkedCalls(Mistral, text, 0, tools, decode)
  }

  /** `calls` is what the first strategy that yields anything yields. */
  ghost predicate FromFirstStrategy(calls: seq<NativeToolCall>, text: string, tools: seq<string>, decode: Decoder) {
    if calls == [] then forall k :: 0 <= k < STRATEGIES ==> Strategy(k, text, tools, decode) == []
    else
      exists k :: && 0 <= k < STRATEGIES && Strategy(k, text, tools, decode) == calls
                  && forall j :: 0 <= j < k ==> Strategy(j, text, tools, decode) == []
  }

  /** The order of the strategies. */
  lemma StrategiesInOrder(text: string, tools: seq<string>, decode: Decoder)
    ensures Strategy(0, text, tools, decode) == CallsInBodies(Tagged(text, ["<tool_call>", "</tool_call>"]), tools, decode)
    ensures Strategy(1, text, tools, decode) == JsonCalls(text, tools, decode)
    ensures Strategy(2, text, tools, decode) == MarkedCalls(Rehearsal, text, 0, tools, decode)
    ensures Strategy(3, text, tools, decode) == MarkupCalls(text, tools, decode)
    ensures Strategy(4, text, tools, decode) == MarkedCalls(Mistral, text, 0, tools, decode)
  {
  }

  lemma {:induction false} BodyCallsExactly(bodies: seq<string>, tools: seq<string>, decode: Decoder, c: NativeToolCall)
    ensures c in CallsInBodies(bodies, tools, decode) <==>
            exists body :: body in bodies && c in JsonCalls(body, tools, decode)
  {
    if bodies != [] {
      BodyCallsExactly(bodies[1..], tools, decode, c);
      assert forall b :: b in bodies <==> b == bodies[0] || b in bodies[1..];
    }
  }

  method ExtractTagged(text: string, tools: seq<string>, decode: Decoder) returns (calls: seq<NativeToolCall>)
    ensures calls == TaggedCalls(text, tools, decode)
  {
    var bodies := TaggedBodies(text, TOOL_CALL);
    calls := ExtractBodies(bodies, tools, decode);
  }

  method ExtractBodies(bodies: seq<string>, tools: seq<string>, decode: Decoder) returns (calls: seq<NativeToolCall>)
    ensures calls == CallsInBodies(bodies, tools, decode)
  {
    calls := [];
    assert bodies[0..] == bodies;
    for i := 0 to |bodies|
      invariant CallsInBodies(bodies, tools, decode) == calls + CallsInBodies(bodies[i..], tools, decode)
    {
      var more := ExtractJsonToolCalls(bodies[i], tools, decode);
      assert bodies[i..][1..] == bodies[i + 1..];
      Regroup(calls, more, CallsInBodies(bodies[i + 1..], tools, decode));
      calls := calls + more;
    }
  }

  method TryStrategy(k: nat, text: string, tools: seq<string>, decode: Decoder) returns (calls: seq<NativeToolCall>)
    requires k < STRATEGIES
    ensures calls == Strategy(k, text, tools, decode)
  {
    match k {
      case 0 => calls := ExtractTagged(text, tools, decode);
      case 1 => calls := ExtractJsonToolCalls(text, tools, decode);
      case 2 => calls := ParseMarkedCalls(Rehearsal, text, tools, decode);
      case 3 => calls := ParseMarkupCalls(text, tools, decode);
      case _ => calls := ParseMarkedCalls(Mistral, text, tools, decode);
    }
  }

  /** Whatever the text and the decoder: the rescue ends, every rescued call names a known tool,
      and the calls come from the first strategy that yields any. */
  method RescueTextToolCalls(text: string, tools: seq<string>, decode: Decoder) returns (calls: seq<NativeToolCall>)
    ensures forall c :: c in calls ==> c.name in tools
    ensures var cleaned := Trim(StripThinking(text), IsTrimmed);
      if cleaned == "" then calls == [] else FromFirstStrategy(calls, cleaned, tools, decode)
  {
    var stripped := StripThinkingBlocks(text);
    var cleaned := Trim(stripped, IsTrimmed);
    if cleaned == "" {
      return [];
    }
    calls := FirstStrategy(cleaned, tools, decode);
  }

  /** The strategies in order, up to the first that yields anything. */
  method FirstStrategy(text: string, tools: seq<string>, decode: Decoder) returns (calls: seq<NativeToolCall>)
    ensures forall c :: c in calls ==> c.name in tools
    ensures FromFirstStrategy(calls, text, tools, decode)
  {
    for k := 0 to STRATEGIES
      invariant forall j :: 0 <= j < k ==> Strategy(j, text, tools, decode) == []
    {
      calls := TryStrategy(k, text, tools, decode);
      if calls != [] {
        return;
      }
    }
    calls := [];
  }
}
