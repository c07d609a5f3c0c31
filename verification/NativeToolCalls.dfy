/** Tool calls inside a decoded JSON value. */
module NativeToolCalls {
  import opened Wrappers
  import opened Json
  import opened Sequences

  datatype NativeToolCall = NativeToolCall(id: Option<string>, callType: Option<string>, name: string, arguments: Value)

  function Get(v: Value, key: string): Option<Value> {
    if v.Object? && key in v.fields then Some(v.fields[key]) else None
  }

  function AsString(v: Option<Value>): Option<string> {
    if v.Some? && v.value.Str? then Some(v.value.s) else None
  }

  function OrElse<T>(a: Option<T>, b: Option<T>): Option<T> {
    if a.Some? then a else b
  }

  /** The calls of a value: through `tool_calls` and arrays to any depth. */
  function NativeCalls(v: Value, tools: seq<string>): (calls: seq<NativeToolCall>)
    ensures forall c :: c in calls ==> c.name in tools
    decreases v, 1
  {
    if v.Object? && "tool_calls" in v.fields && v.fields["tool_calls"].Array? then
      NativeCallsOfAll(v.fields["tool_calls"].items, tools)
    else if v.Array? then NativeCallsOfAll(v.items, tools)
    else
      var function_ := match Get(v, "function") case Some(f) => f case None => v;
      match AsString(OrElse(Get(function_, "name"), Get(v, "tool")))
      case None => []
      case Some(name) =>
        if name !in tools then []
        else
          var arguments := match OrElse(Get(function_, "arguments"), Get(function_, "args"))
                           case Some(a) => a case None => Object(map[]);
          [NativeToolCall(AsString(Get(v, "id")), OrElse(AsString(Get(v, "type")), Some("function")), name, arguments)]
  }

  function NativeCallsOfAll(items: seq<Value>, tools: seq<string>): (calls: seq<NativeToolCall>)
    ensures forall c :: c in calls ==> c.name in tools
    decreases items, 0
  {
    if items == [] then [] else NativeCalls(items[0], tools) + NativeCallsOfAll(items[1..], tools)
  }

  // ----- What a single value says -----

  predicate Has(v: Value, key: string) {
    v.Object? && key in v.fields
  }

  /** Neither an array nor an envelope of calls. */
  predicate Single(v: Value) {
    !v.Array? && !(Has(v, "tool_calls") && v.fields["tool_calls"].Array?)
  }

  /** The part of a value that describes the function. */
  function Described(v: Value): Value {
    if Has(v, "function") then v.fields["function"] else v
  }

  predicate IsText(v: Value, key: string, text: string) {
    Has(v, key) && v.fields[key] == Str(text)
  }

  /** The value describes this call: the name of the function goes before `tool`, `arguments` before
      `args`, nothing given means no arguments, and a type that is not given is "function". */
  ghost predicate Describes(v: Value, c: NativeToolCall) {
    var f := Described(v);
    && (if Has(f, "name") then IsText(f, "name", c.name) else IsText(v, "tool", c.name))
    && c.arguments == (if Has(f, "arguments") then f.fields["arguments"]
                       else if Has(f, "args") then f.fields["args"]
                       else Object(map[]))
    && (if Has(v, "id") && v.fields["id"].Str? then c.id == Some(v.fields["id"].s) else c.id == None)
    && (if Has(v, "type") && v.fields["type"].Str? then c.callType == Some(v.fields["type"].s)
        else c.callType == Some("function"))
  }

  /** A single value yields the call it describes if that names a known tool, and nothing else. */
  lemma SingleExactly(v: Value, tools: seq<string>, c: NativeToolCall)
    requires Single(v)
    ensures |NativeCalls(v, tools)| <= 1
    ensures c in NativeCalls(v, tools) <==> Describes(v, c) && c.name in tools
  {
  }

  // ----- Many values -----

  /** The calls of many values are the calls of each, in order. */
  lemma {:induction false} CallsInOrder(a: seq<Value>, b: seq<Value>, tools: seq<string>)
    ensures NativeCallsOfAll(a + b, tools) == NativeCallsOfAll(a, tools) + NativeCallsOfAll(b, tools)
  {
    if a == [] {
      assert a + b == b;
    } else {
      assert (a + b)[0] == a[0] && (a + b)[1..] == a[1..] + b;
      CallsInOrder(a[1..], b, tools);
      Regroup(NativeCalls(a[0], tools), NativeCallsOfAll(a[1..], tools), NativeCallsOfAll(b, tools));
    }
  }

  lemma CallsOfOne(v: Value, tools: seq<string>)
    ensures NativeCallsOfAll([v], tools) == NativeCalls(v, tools)
  {
    assert [v][1..] == [];
  }

  /** An array and an envelope yield the calls of their members. */
  lemma CallsOfMembers(items: seq<Value>, fields: map<string, Value>, tools: seq<string>)
    requires "tool_calls" in fields && fields["tool_calls"] == Array(items)
    ensures NativeCalls(Array(items), tools) == NativeCallsOfAll(items, tools)
    ensures NativeCalls(Object(fields), tools) == NativeCallsOfAll(items, tools)
  {
  }

  // ----- Round trips -----

  /** The wire form of a call. */
  function Wire(c: NativeToolCall): Value {
    var described := Object(map["name" := Str(c.name), "arguments" := c.arguments]);
    var id := if c.id.Some? then map["id" := Str(c.id.value)] else map[];
    var callType := if c.callType.Some? then map["type" := Str(c.callType.value)] else map[];
    Object(map["function" := described] + id + callType)
  }

  /** The short form, without id and type. */
  function Short(name: string, arguments: Value): Value {
    Object(map["name" := Str(name), "arguments" := arguments])
  }

  lemma ShortRoundTrip(name: string, arguments: Value, tools: seq<string>)
    requires name in tools
    ensures NativeCalls(Short(name, arguments), tools) == [NativeToolCall(None, Some("function"), name, arguments)]
  {
  }

  lemma WireRoundTrip(c: NativeToolCall, tools: seq<string>)
    requires c.name in tools && c.callType.Some?
    ensures NativeCalls(Wire(c), tools) == [c]
  {
    var v := Wire(c);
    assert Single(v) && Described(v) == Object(map["name" := Str(c.name), "arguments" := c.arguments]);
    SingleExactly(v, tools, c);
  }

  function WireAll(calls: seq<NativeToolCall>): seq<Value> {
    if calls == [] then [] else [Wire(calls[0])] + WireAll(calls[1..])
  }

  /** Calls of known tools written out come back, all of them and in order. */
  lemma {:induction false} CallsRoundTrip(calls: seq<NativeToolCall>, tools: seq<string>)
    requires forall c :: c in calls ==> c.name in tools && c.callType.Some?
    ensures NativeCallsOfAll(WireAll(calls), tools) == calls
  {
    if calls != [] {
      var first, later := Wire(calls[0]), WireAll(calls[1..]);
      WireRoundTrip(calls[0], tools);
      CallsRoundTrip(calls[1..], tools);
      CallsOfOne(first, tools);
      CallsInOrder([first], later, tools);
      assert calls == [calls[0]] + calls[1..];
    }
  }

  /** Also inside an envelope. */
  lemma EnvelopeRoundTrip(calls: seq<NativeToolCall>, tools: seq<string>)
    requires forall c :: c in calls ==> c.name in tools && c.callType.Some?
    ensures NativeCalls(Object(map["tool_calls" := Array(WireAll(calls))]), tools) == calls
  {
    CallsRoundTrip(calls, tools);
    CallsOfMembers(WireAll(calls), map["tool_calls" := Array(WireAll(calls))], tools);
  }
}
