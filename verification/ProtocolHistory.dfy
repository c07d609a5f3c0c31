/** Rendering a stored conversation into a call/result history.

    A conversation keeps plain messages and, for native tool turns, the protocol messages that
    stand in their place.  A window renders the messages from a safe start on; whenever a
    message other than a tool result arrives while announced calls are still unanswered, and
    again at the end, a synthetic result is inserted for every open call. */
module ProtocolHistory {
  import opened Sequences
  import opened Wrappers

  datatype WireToolCall = WireToolCall(id: string, name: string, arguments: string)

  datatype Message = Message(
    role: string,
    content: Option<string>,
    toolCalls: Option<seq<WireToolCall>>,
    toolCallId: Option<string>,
    name: Option<string>)

  datatype ChatMessage = ChatMessage(role: string, content: string)

  datatype ToolResult = ToolResult(name: string, callId: string, content: string)

  datatype Window = Window(messages: seq<Message>, interrupted: seq<string>)

  /** An announced call that has no result yet. */
  datatype PendingCall = PendingCall(id: string, name: string)

  /** Stands for the longer text of the source. */
  const INTERRUPTED := "not confirmed"

  function Plain(m: ChatMessage): Message {
    Message(m.role, Some(m.content), None, None, None)
  }

  function ToolResultMessage(r: ToolResult): Message {
    Message("tool", Some(r.content), None, Some(r.callId), Some(r.name))
  }

  predicate IsTool(m: Message) {
    m.role == "tool"
  }

  predicate Answers(m: Message, id: string) {
    IsTool(m) && m.toolCallId == Some(id)
  }

  function Announced(m: Message): seq<PendingCall> {
    match m.toolCalls
    case None => []
    case Some(calls) => seq(|calls|, i requires 0 <= i < |calls| => PendingCall(calls[i].id, calls[i].name))
  }

  predicate Announces(m: Message, id: string) {
    exists c :: c in Announced(m) && c.id == id
  }

  // ----- Rendering as a function of the stored messages -----

  /** A rendered message, marked when it was inserted for an open call. */
  datatype Rendered = Stored(message: Message) | Synthetic(message: Message)

  function SyntheticResult(c: PendingCall): Rendered {
    Synthetic(ToolResultMessage(ToolResult(c.name, c.id, INTERRUPTED)))
  }

  function CloseAll(pending: seq<PendingCall>): seq<Rendered> {
    seq(|pending|, i requires 0 <= i < |pending| => SyntheticResult(pending[i]))
  }

  function Retain(pending: seq<PendingCall>, id: string): (rest: seq<PendingCall>)
    ensures forall c :: c in rest <==> c in pending && c.id != id
    ensures (forall c :: c in pending ==> c.id == id) ==> rest == []
  {
    if pending == [] then []
    else if pending[0].id != id then [pending[0]] + Retain(pending[1..], id)
    else Retain(pending[1..], id)
  }

  /** The open calls just before `m` is written. */
  function OpenBefore(pending: seq<PendingCall>, m: Message): seq<PendingCall> {
    if !IsTool(m) then []
    else if m.toolCallId.Some? then Retain(pending, m.toolCallId.value)
    else pending
  }

  function OpenAfter(pending: seq<PendingCall>, m: Message): seq<PendingCall> {
    OpenBefore(pending, m) + Announced(m)
  }

  /** What writing `m` adds to the history. */
  function Write(pending: seq<PendingCall>, m: Message): seq<Rendered> {
    (if IsTool(m) then [] else CloseAll(pending)) + [Stored(m)]
  }

  /** The history rendered from `stored` when `pending` is open at its start. */
  function Render(pending: seq<PendingCall>, stored: seq<Message>): seq<Rendered>
    decreases |stored|
  {
    if stored == [] then CloseAll(pending)
    else Write(pending, stored[0]) + Render(OpenAfter(pending, stored[0]), stored[1..])
  }

  function Messages(rendered: seq<Rendered>): (ms: seq<Message>)
    ensures |ms| == |rendered| && forall i :: 0 <= i < |ms| ==> ms[i] == rendered[i].message
  {
    seq(|rendered|, i requires 0 <= i < |rendered| => rendered[i].message)
  }

  /** The stored messages of a history, in order. */
  function StoredOnly(rendered: seq<Rendered>): seq<Message> {
    if rendered == [] then [] else StoredPart(rendered[0]) + StoredOnly(rendered[1..])
  }

  function StoredPart(r: Rendered): seq<Message> {
    if r.Stored? then [r.message] else []
  }

  /** The ids that the inserted results answer, in order. */
  function InsertedIds(rendered: seq<Rendered>): seq<string> {
    if rendered == [] then [] else InsertedPart(rendered[0]) + InsertedIds(rendered[1..])
  }

  function InsertedPart(r: Rendered): seq<string> {
    if r.Synthetic? && r.message.toolCallId.Some? then [r.message.toolCallId.value] else []
  }

  // ----- Splitting histories -----

  lemma {:induction false} StoredOnlyConcat(a: seq<Rendered>, b: seq<Rendered>)
    ensures StoredOnly(a + b) == StoredOnly(a) + StoredOnly(b)
  {
    if a == [] {
      assert a + b == b;
    } else {
      assert (a + b)[0] == a[0] && (a + b)[1..] == a[1..] + b;
      StoredOnlyConcat(a[1..], b);
      Regroup(StoredPart(a[0]), StoredOnly(a[1..]), StoredOnly(b));
    }
  }

  lemma {:induction false} InsertedIdsConcat(a: seq<Rendered>, b: seq<Rendered>)
    ensures InsertedIds(a + b) == InsertedIds(a) + InsertedIds(b)
  {
    if a == [] {
      assert a + b == b;
    } else {
      assert (a + b)[0] == a[0] && (a + b)[1..] == a[1..] + b;
      InsertedIdsConcat(a[1..], b);
      Regroup(InsertedPart(a[0]), InsertedIds(a[1..]), InsertedIds(b));
    }
  }

  function Ids(pending: seq<PendingCall>): (ids: seq<string>)
    ensures |ids| == |pending|
  {
    seq(|pending|, i requires 0 <= i < |pending| => pending[i].id)
  }

  lemma {:induction false} ClosingIsSynthetic(pending: seq<PendingCall>)
    ensures StoredOnly(CloseAll(pending)) == []
    ensures InsertedIds(CloseAll(pending)) == Ids(pending)
  {
    if pending != [] {
      assert CloseAll(pending)[1..] == CloseAll(pending[1..]);
      assert Ids(pending) == [pending[0].id] + Ids(pending[1..]);
      ClosingIsSynthetic(pending[1..]);
    }
  }

  lemma WriteParts(pending: seq<PendingCall>, m: Message)
    ensures StoredOnly(Write(pending, m)) == [m]
    ensures InsertedIds(Write(pending, m)) == if IsTool(m) then [] else Ids(pending)
  {
    var closing := if IsTool(m) then [] else CloseAll(pending);
    ClosingIsSynthetic(pending);
    StoredOnlyConcat(closing, [Stored(m)]);
    InsertedIdsConcat(closing, [Stored(m)]);
    assert [Stored(m)][1..] == [];
  }

  /** Rendering only inserts: without the inserted results the history is what was stored. */
  lemma {:induction false} RenderingOnlyInserts(pending: seq<PendingCall>, stored: seq<Message>)
    ensures StoredOnly(Render(pending, stored)) == stored
    decreases |stored|
  {
    ClosingIsSynthetic(pending);
    if stored != [] {
      var m := stored[0];
      RenderingOnlyInserts(OpenAfter(pending, m), stored[1..]);
      StoredOnlyConcat(Write(pending, m), Render(OpenAfter(pending, m), stored[1..]));
      WriteParts(pending, m);
    }
  }

  /** The synthetic results that precede `m`, as messages. */
  function ClosingMessages(pending: seq<PendingCall>, m: Message): (ms: seq<Message>) {
    if IsTool(m) then [] else Messages(CloseAll(pending))
  }

  lemma RenderUnfold(pending: seq<PendingCall>, stored: seq<Message>)
    requires stored != []
    ensures Messages(Render(pending, stored)) ==
            ClosingMessages(pending, stored[0])
            + ([stored[0]] + Messages(Render(OpenAfter(pending, stored[0]), stored[1..])))
  {
    var m, after := stored[0], Render(OpenAfter(pending, stored[0]), stored[1..]);
    var closing := if IsTool(m) then [] else CloseAll(pending);
    MessagesConcat(closing + [Stored(m)], after);
    MessagesConcat(closing, [Stored(m)]);
    assert Messages([Stored(m)]) == [m] && (IsTool(m) ==> Messages(closing) == []);
    Regroup(Messages(closing), [m], Messages(after));
  }

  lemma MessagesConcat(a: seq<Rendered>, b: seq<Rendered>)
    ensures Messages(a + b) == Messages(a) + Messages(b)
  {
  }

  /** The call was open at the start or is announced by one of the messages. */
  ghost predicate OpenOrAnnounced(pending: seq<PendingCall>, stored: seq<Message>, c: PendingCall) {
    c in pending || exists m :: m in stored && c in Announced(m)
  }

  /** `r` is stored, or a result that names an open or announced call and its tool. */
  ghost predicate Accountable(pending: seq<PendingCall>, stored: seq<Message>, r: Rendered) {
    || (r.Stored? && r.message in stored)
    || exists c :: && OpenOrAnnounced(pending, stored, c)
                   && r == Synthetic(Message("tool", Some(INTERRUPTED), None, Some(c.id), Some(c.name)))
  }

  /** Nothing else is ever rendered. */
  lemma {:induction false} EverythingIsAccountable(pending: seq<PendingCall>, stored: seq<Message>, r: Rendered)
    requires r in Render(pending, stored)
    ensures Accountable(pending, stored, r)
    decreases |stored|
  {
    if r in CloseAll(pending) {
      var i :| 0 <= i < |pending| && CloseAll(pending)[i] == r;
      assert OpenOrAnnounced(pending, stored, pending[i]);
    } else if stored != [] {
      var m := stored[0];
      if r == Stored(m) {
        assert m in stored;
      } else {
        assert r in Render(OpenAfter(pending, m), stored[1..]);
        EverythingIsAccountable(OpenAfter(pending, m), stored[1..], r);
        AccountableEarlier(pending, stored, r);
      }
    }
  }

  lemma AccountableEarlier(pending: seq<PendingCall>, stored: seq<Message>, r: Rendered)
    requires stored != [] && Accountable(OpenAfter(pending, stored[0]), stored[1..], r)
    ensures Accountable(pending, stored, r)
  {
    if !(r.Stored? && r.message in stored[1..]) {
      var c :| && OpenOrAnnounced(OpenAfter(pending, stored[0]), stored[1..], c)
               && r == Synthetic(Message("tool", Some(INTERRUPTED), None, Some(c.id), Some(c.name)));
      assert OpenOrAnnounced(pending, stored, c) by {
        assert stored[0] in stored;
        assert c in OpenAfter(pending, stored[0]) ==> c in pending || c in Announced(stored[0]);
      }
    }
  }

  // ----- Every announced call is closed -----

  /** A result for `id` comes at or after `from`, before any message that is not a tool result. */
  ghost predicate ClosedFrom(ms: seq<Message>, from: nat, id: string) {
    exists j :: from <= j < |ms| && Answers(ms[j], id) && forall k :: from <= k < j ==> IsTool(ms[k])
  }

  /** Every call announced in the history is closed after its announcement. */
  ghost predicate AllCallsClosed(ms: seq<Message>) {
    forall i, id :: 0 <= i < |ms| && Announces(ms[i], id) ==> ClosedFrom(ms, i + 1, id)
  }

  ghost predicate AllClosedAtStart(ms: seq<Message>, pending: seq<PendingCall>) {
    forall c :: c in pending ==> ClosedFrom(ms, 0, c.id)
  }

  lemma ClosedFromShift(a: seq<Message>, b: seq<Message>, from: nat, id: string)
    requires ClosedFrom(b, from, id)
    ensures ClosedFrom(a + b, |a| + from, id)
  {
    var j :| from <= j < |b| && Answers(b[j], id) && forall k :: from <= k < j ==> IsTool(b[k]);
    assert (a + b)[|a| + j] == b[j];
    assert forall k :: |a| + from <= k < |a| + j ==> (a + b)[k] == b[k - |a|];
  }

  /** Synthetic results in front close the calls they were inserted for. */
  lemma ClosingCloses(pending: seq<PendingCall>, rest: seq<Message>)
    ensures AllClosedAtStart(Messages(CloseAll(pending)) + rest, pending)
  {
    var ms := Messages(CloseAll(pending)) + rest;
    forall c | c in pending ensures ClosedFrom(ms, 0, c.id) {
      var j :| 0 <= j < |pending| && pending[j] == c;
      assert Answers(ms[j], c.id);
      assert forall k :: 0 <= k < j ==> ms[k] == SyntheticResult(pending[k]).message;
    }
  }

  /** Writing one message in front of a closed history that closes the calls it announces. */
  lemma AnnouncingInFront(m: Message, rest: seq<Message>)
    requires AllCallsClosed(rest) && AllClosedAtStart(rest, Announced(m))
    ensures AllCallsClosed([m] + rest)
  {
    var ms := [m] + rest;
    forall i, id | 0 <= i < |ms| && Announces(ms[i], id) ensures ClosedFrom(ms, i + 1, id) {
      if i > 0 {
        assert ms[i] == rest[i - 1];
        ClosedFromShift([m], rest, i, id);
      } else {
        ClosedFromShift([m], rest, 0, id);
      }
    }
  }

  lemma SilentInFront(front: seq<Message>, rest: seq<Message>)
    requires AllCallsClosed(rest) && forall i :: 0 <= i < |front| ==> front[i].toolCalls == None
    ensures AllCallsClosed(front + rest)
  {
    var ms := front + rest;
    assert forall i :: 0 <= i < |front| ==> Announced(front[i]) == [];
    forall i, id | |front| <= i < |ms| && Announces(ms[i], id) ensures ClosedFrom(ms, i + 1, id) {
      assert ms[i] == rest[i - |front|];
      ClosedFromShift(front, rest, i - |front| + 1, id);
    }
  }

  /** A stored tool result keeps the other open calls closed by what follows. */
  lemma ToolInFront(m: Message, rest: seq<Message>, pending: seq<PendingCall>)
    requires IsTool(m) && AllClosedAtStart(rest, OpenBefore(pending, m))
    ensures AllClosedAtStart([m] + rest, pending)
  {
    var ms := [m] + rest;
    forall c | c in pending ensures ClosedFrom(ms, 0, c.id) {
      if Answers(m, c.id) {
        assert ms[0] == m;
      } else {
        assert c in OpenBefore(pending, m);
        var j :| 0 <= j < |rest| && Answers(rest[j], c.id) && forall k :: 0 <= k < j ==> IsTool(rest[k]);
        assert ms[j + 1] == rest[j];
        assert forall k :: 0 <= k < j + 1 ==> ms[k] == if k == 0 then m else rest[k - 1];
      }
    }
  }

  /** Calls open at the start of a rendering are closed at its start; calls announced inside it
      are closed right after their announcement. */
  lemma {:induction false} RenderingCloses(pending: seq<PendingCall>, stored: seq<Message>)
    ensures AllCallsClosed(Messages(Render(pending, stored)))
    ensures AllClosedAtStart(Messages(Render(pending, stored)), pending)
    decreases |stored|
  {
    if stored == [] {
      var closing := Messages(CloseAll(pending));
      assert closing == closing + [];
      ClosingCloses(pending, []);
      SilentInFront(closing, []);
    } else {
      var m, open := stored[0], OpenAfter(pending, stored[0]);
      var rest := Messages(Render(open, stored[1..]));
      RenderingCloses(open, stored[1..]);
      RenderUnfold(pending, stored);
      AnnouncingInFront(m, rest);
      SilentInFront(ClosingMessages(pending, m), [m] + rest);
      if IsTool(m) {
        ToolInFront(m, rest, pending);
        assert [] + ([m] + rest) == [m] + rest;
      } else {
        ClosingCloses(pending, [m] + rest);
      }
    }
  }

  // ----- Rendering a rendered history -----

  /** Nothing is inserted when a history is rendered whose messages are `ms`. */
  ghost predicate RendersUnchanged(pending: seq<PendingCall>, ms: seq<Message>) {
    Messages(Render(pending, ms)) == ms && InsertedIds(Render(pending, ms)) == []
  }

  /** One more message in front, if nothing has to be closed before it. */
  lemma UnchangedInFront(open: seq<PendingCall>, m: Message, rest: seq<Message>)
    requires IsTool(m) || open == []
    requires RendersUnchanged(OpenAfter(open, m), rest)
    ensures RendersUnchanged(open, [m] + rest)
  {
    var ms := [m] + rest;
    assert ms[0] == m && ms[1..] == rest;
    RenderUnfold(open, ms);
    assert ClosingMessages(open, m) == [];
    assert Write(open, m) == [Stored(m)];
    InsertedIdsConcat([Stored(m)], Render(OpenAfter(open, m), rest));
  }

  /** The synthetic results of `closing` answer everything open. */
  lemma {:induction false} RerenderClosing(open: seq<PendingCall>, closing: seq<PendingCall>, rest: seq<Message>)
    requires (forall c :: c in open ==> c in closing) && (closing == [] ==> open == [])
    requires RendersUnchanged([], rest)
    ensures RendersUnchanged(open, Messages(CloseAll(closing)) + rest)
    decreases |closing|
  {
    if closing == [] {
      assert Messages(CloseAll(closing)) + rest == rest;
    } else {
      var first := SyntheticResult(closing[0]).message;
      var tail := Messages(CloseAll(closing[1..])) + rest;
      assert Messages(CloseAll(closing)) + rest == [first] + tail;
      var next := OpenAfter(open, first);
      assert next == Retain(open, closing[0].id);
      forall c | c in next ensures c in closing[1..] {
        assert c in closing && c != closing[0];
      }
      RerenderClosing(next, closing[1..], rest);
      UnchangedInFront(open, first, tail);
    }
  }

  /** Rendering a rendered history again changes nothing and inserts nothing. */
  lemma {:induction false} RenderingIsIdempotent(pending: seq<PendingCall>, stored: seq<Message>)
    ensures RendersUnchanged(pending, Messages(Render(pending, stored)))
    decreases |stored|
  {
    if stored == [] {
      assert Messages(CloseAll(pending)) == Messages(CloseAll(pending)) + [];
      RerenderClosing(pending, pending, []);
    } else {
      var m, open := stored[0], OpenAfter(pending, stored[0]);
      var rest := Messages(Render(open, stored[1..]));
      RenderingIsIdempotent(open, stored[1..]);
      RenderUnfold(pending, stored);
      if IsTool(m) {
        UnchangedInFront(pending, m, rest);
        assert [] + ([m] + rest) == [m] + rest;
      } else {
        UnchangedInFront([], m, rest);
        RerenderClosing(pending, pending, [m] + rest);
      }
    }
  }

  // ----- Exactly one result per call -----

  /** The results for `id` at the front of `ms`, up to the first message that is not a tool result. */
  function ResultsFor(ms: seq<Message>, id: string): nat {
    if ms == [] || !IsTool(ms[0]) then 0
    else (if Answers(ms[0], id) then 1 else 0) + ResultsFor(ms[1..], id)
  }

  function CountId(calls: seq<PendingCall>, id: string): nat {
    if calls == [] then 0 else (if calls[0].id == id then 1 else 0) + CountId(calls[1..], id)
  }

  /** Every announced call is followed by exactly one result before the next other message. */
  ghost predicate OneResultEach(ms: seq<Message>) {
    ms == [] ||
    (&& (forall id :: Announces(ms[0], id) ==> ResultsFor(ms[1..], id) == 1)
     && OneResultEach(ms[1..]))
  }

  /** How many calls with this id are still open when the tool results at the front of `stored`
      are through. */
  function LeftOpen(pending: seq<PendingCall>, stored: seq<Message>, id: string): nat
    decreases |stored|
  {
    if stored == [] || !IsTool(stored[0]) then CountId(pending, id)
    else LeftOpen(OpenAfter(pending, stored[0]), stored[1..], id)
  }

  /** For every announced id, the stored results and the calls left open make one. */
  ghost predicate OneAnswerEach(pending: seq<PendingCall>, stored: seq<Message>)
    decreases |stored|
  {
    stored == [] ||
    var open := OpenAfter(pending, stored[0]);
    && (forall id :: Announces(stored[0], id) ==> ResultsFor(stored[1..], id) + LeftOpen(open, stored[1..], id) == 1)
    && OneAnswerEach(open, stored[1..])
  }

  /** Every announced id is answered by one stored result, or by none and announced only once. */
  ghost predicate AnsweredAtMostOnce(stored: seq<Message>) {
    stored == [] ||
    (&& (forall id :: Announces(stored[0], id) ==>
           || ResultsFor(stored[1..], id) == 1
           || (ResultsFor(stored[1..], id) == 0 && CountId(Announced(stored[0]), id) == 1))
     && AnsweredAtMostOnce(stored[1..]))
  }

  ghost predicate ToolResultsAnnounceNothing(stored: seq<Message>) {
    forall i :: 0 <= i < |stored| && IsTool(stored[i]) ==> Announced(stored[i]) == []
  }

  lemma {:induction false} ResultsOfClosing(pending: seq<PendingCall>, rest: seq<Message>, id: string)
    ensures ResultsFor(Messages(CloseAll(pending)) + rest, id) == CountId(pending, id) + ResultsFor(rest, id)
  {
    if pending == [] {
      assert Messages(CloseAll(pending)) + rest == rest;
    } else {
      var first := SyntheticResult(pending[0]).message;
      var tail := Messages(CloseAll(pending[1..])) + rest;
      assert Messages(CloseAll(pending)) + rest == [first] + tail;
      assert ([first] + tail)[1..] == tail;
      ResultsOfClosing(pending[1..], rest, id);
    }
  }

  lemma {:induction false} CountAfterRetain(pending: seq<PendingCall>, answered: string, id: string)
    ensures CountId(Retain(pending, answered), id) == if id == answered then 0 else CountId(pending, id)
  {
    if pending != [] {
      CountAfterRetain(pending[1..], answered, id);
      var kept := Retain(pending[1..], answered);
      assert ([pending[0]] + kept)[1..] == kept;
    }
  }

  /** A rendering answers an id by its stored results and by one result per call left open. */
  lemma {:induction false} ResultsOfRendering(pending: seq<PendingCall>, stored: seq<Message>, id: string)
    ensures ResultsFor(Messages(Render(pending, stored)), id) == ResultsFor(stored, id) + LeftOpen(pending, stored, id)
    decreases |stored|
  {
    if stored == [] {
      assert Messages(CloseAll(pending)) == Messages(CloseAll(pending)) + [];
      ResultsOfClosing(pending, [], id);
    } else {
      var m, open := stored[0], OpenAfter(pending, stored[0]);
      var rest := Messages(Render(open, stored[1..]));
      RenderUnfold(pending, stored);
      if IsTool(m) {
        assert [] + ([m] + rest) == [m] + rest && ([m] + rest)[1..] == rest;
        ResultsOfRendering(open, stored[1..], id);
      } else {
        ResultsOfClosing(pending, [m] + rest, id);
      }
    }
  }

  lemma {:induction false} SilentKeepsOneResult(front: seq<Message>, rest: seq<Message>)
    requires forall i :: 0 <= i < |front| ==> front[i].toolCalls == None
    ensures OneResultEach(front + rest) <==> OneResultEach(rest)
  {
    if front == [] {
      assert front + rest == rest;
    } else {
      assert (front + rest)[1..] == front[1..] + rest;
      assert Announced((front + rest)[0]) == [];
      SilentKeepsOneResult(front[1..], rest);
    }
  }

  /** The documented promise of one result per call holds exactly for the stored histories in
      which stored results and calls left open make one for every announced id. */
  lemma {:induction false} OneResultExactlyWhen(pending: seq<PendingCall>, stored: seq<Message>)
    ensures OneResultEach(Messages(Render(pending, stored))) <==> OneAnswerEach(pending, stored)
    decreases |stored|
  {
    if stored == [] {
      assert Messages(CloseAll(pending)) == Messages(CloseAll(pending)) + [];
      SilentKeepsOneResult(Messages(CloseAll(pending)), []);
    } else {
      var m, open := stored[0], OpenAfter(pending, stored[0]);
      var rest := Messages(Render(open, stored[1..]));
      RenderUnfold(pending, stored);
      SilentKeepsOneResult(ClosingMessages(pending, m), [m] + rest);
      assert ([m] + rest)[1..] == rest;
      OneResultExactlyWhen(open, stored[1..]);
      forall id ensures ResultsFor(rest, id) == ResultsFor(stored[1..], id) + LeftOpen(open, stored[1..], id) {
        ResultsOfRendering(open, stored[1..], id);
      }
    }
  }

  /** Tool results that announce nothing leave an id open only if none of them answers it. */
  lemma {:induction false} LeftOpenAfterResults(pending: seq<PendingCall>, stored: seq<Message>, id: string)
    requires ToolResultsAnnounceNothing(stored)
    ensures LeftOpen(pending, stored, id) == if ResultsFor(stored, id) > 0 then 0 else CountId(pending, id)
    decreases |stored|
  {
    if stored != [] && IsTool(stored[0]) {
      var m, open := stored[0], OpenAfter(pending, stored[0]);
      LeftOpenAfterResults(open, stored[1..], id);
      assert open == OpenBefore(pending, m);
      if m.toolCallId.Some? {
        CountAfterRetain(pending, m.toolCallId.value, id);
      }
    }
  }

  /** For the histories that the source builds, whose tool results announce no calls: no announced
      id is answered twice, and none is left open that was announced twice. */
  lemma {:induction false} OneResultInOrdinaryHistories(pending: seq<PendingCall>, stored: seq<Message>)
    requires ToolResultsAnnounceNothing(stored)
    ensures OneAnswerEach(pending, stored) <==> AnsweredAtMostOnce(stored)
    decreases |stored|
  {
    if stored != [] {
      var m, open := stored[0], OpenAfter(pending, stored[0]);
      OneResultInOrdinaryHistories(open, stored[1..]);
      assert !IsTool(m) ==> open == Announced(m);
      forall id | Announces(m, id)
        ensures LeftOpen(open, stored[1..], id) == if ResultsFor(stored[1..], id) > 0 then 0 else CountId(Announced(m), id)
        ensures CountId(Announced(m), id) >= 1
      {
        LeftOpenAfterResults(open, stored[1..], id);
        CountOfMember(Announced(m), id);
      }
    }
  }

  lemma {:induction false} CountOfMember(calls: seq<PendingCall>, id: string)
    requires exists c :: c in calls && c.id == id
    ensures CountId(calls, id) >= 1
  {
    if calls[0].id != id {
      CountOfMember(calls[1..], id);
    }
  }

  /** A second stored result for the same call survives rendering. */
  lemma DuplicateResultIsKept(call: WireToolCall, result: ToolResult)
    requires result.callId == call.id
    ensures var turn := Message("assistant", Some(""), Some([call]), None, None);
      var answer := ToolResultMessage(result);
      !OneResultEach(Messages(Render([], [turn, answer, answer])))
  {
    var turn := Message("assistant", Some(""), Some([call]), None, None);
    var answer := ToolResultMessage(result);
    var stored := [turn, answer, answer];
    assert Announced(turn)[0] == PendingCall(call.id, call.name);
    assert Announces(turn, call.id);
    assert stored[1..] == [answer, answer] && [answer, answer][1..] == [answer];
    assert ResultsFor([answer], call.id) == 1;
    assert ResultsFor(stored[1..], call.id) == 2;
    OneResultExactlyWhen([], stored);
    OneResultInOrdinaryHistories([], stored);
  }

  // ----- No result without its call -----

  function AnnouncedIds(m: Message): set<string> {
    set c | c in Announced(m) :: c.id
  }

  /** Every result names a call in `known` or announced before it. */
  ghost predicate NoOrphans(known: set<string>, ms: seq<Message>)
    decreases |ms|
  {
    ms == [] ||
    (&& (ms[0].toolCallId.Some? ==> ms[0].toolCallId.value in known)
     && NoOrphans(known + AnnouncedIds(ms[0]), ms[1..]))
  }

  lemma {:induction false} ClosingHasNoOrphans(known: set<string>, pending: seq<PendingCall>, rest: seq<Message>)
    requires forall c :: c in pending ==> c.id in known
    requires NoOrphans(known, rest)
    ensures NoOrphans(known, Messages(CloseAll(pending)) + rest)
  {
    if pending == [] {
      assert Messages(CloseAll(pending)) + rest == rest;
    } else {
      var first := SyntheticResult(pending[0]).message;
      var tail := Messages(CloseAll(pending[1..])) + rest;
      assert Messages(CloseAll(pending)) + rest == [first] + tail;
      assert ([first] + tail)[1..] == tail;
      assert known + AnnouncedIds(first) == known;
      ClosingHasNoOrphans(known, pending[1..], rest);
    }
  }

  lemma {:induction false} RenderingAddsNoOrphans(known: set<string>, pending: seq<PendingCall>, stored: seq<Message>)
    requires forall c :: c in pending ==> c.id in known
    requires NoOrphans(known, stored)
    ensures NoOrphans(known, Messages(Render(pending, stored)))
    decreases |stored|
  {
    if stored == [] {
      assert Messages(CloseAll(pending)) == Messages(CloseAll(pending)) + [];
      ClosingHasNoOrphans(known, pending, []);
    } else {
      var m, open := stored[0], OpenAfter(pending, stored[0]);
      var rest := Messages(Render(open, stored[1..]));
      RenderUnfold(pending, stored);
      forall c | c in open ensures c.id in known + AnnouncedIds(m) {
        assert c in pending || c in Announced(m);
      }
      RenderingAddsNoOrphans(known + AnnouncedIds(m), open, stored[1..]);
      assert ([m] + rest)[1..] == rest;
      assert NoOrphans(known, [m] + rest);
      if IsTool(m) {
        assert [] + ([m] + rest) == [m] + rest;
      } else {
        ClosingHasNoOrphans(known, pending, [m] + rest);
      }
    }
  }

  // ----- The stored conversation -----

  type Overrides = map<nat, seq<Message>>

  /** Plain messages, and the protocol messages that replace some of them. */
  datatype History = History(plain: seq<ChatMessage>, overrides: Overrides)

  function Entry(h: History, i: nat): seq<Message>
    requires i < |h.plain|
  {
    if i in h.overrides then h.overrides[i] else [Plain(h.plain[i])]
  }

  /** The messages stored from entry `start` on. */
  function StoredFrom(h: History, start: nat): seq<Message>
    decreases |h.plain| - start
  {
    if start >= |h.plain| then [] else Entry(h, start) + StoredFrom(h, start + 1)
  }

  /** The ids that the results of an entry answer. */
  function RequiredIds(entry: seq<Message>): set<string> {
    if entry == [] then {}
    else (if entry[0].toolCallId.Some? then {entry[0].toolCallId.value} else {}) + RequiredIds(entry[1..])
  }

  /** The ids that the calls of an entry announce. */
  function SuppliedIds(entry: seq<Message>): set<string> {
    if entry == [] then {} else AnnouncedIds(entry[0]) + SuppliedIds(entry[1..])
  }

  predicate Supplies(h: History, i: nat, required: set<string>) {
    i in h.overrides && required <= SuppliedIds(h.overrides[i])
  }

  /** The last entry before `before` that supplies all of `required`, if there is one. */
  function LastSupplier(h: History, before: nat, required: set<string>): (i: Option<nat>)
    ensures i.Some? ==> i.value < before && Supplies(h, i.value, required)
    ensures forall j :: (if i.Some? then i.value else -1) < j < before ==> !Supplies(h, j, required)
  {
    if before == 0 then None
    else if Supplies(h, before - 1, required) then Some(before - 1)
    else LastSupplier(h, before - 1, required)
  }

  /** Where a window that is asked to start at `requested` starts: at the turn that announced
      the calls whose results stand there, if one entry announces them all. */
  function SafeStart(h: History, requested: nat): nat {
    if requested !in h.overrides || RequiredIds(h.overrides[requested]) == {} then requested
    else
      match LastSupplier(h, requested, RequiredIds(h.overrides[requested]))
      case Some(i) => i
      case None => requested
  }

  // ----- What the start of a window is -----

  /** Some message of the entry is a result for `id`. */
  ghost predicate HoldsResultFor(entry: seq<Message>, id: string) {
    exists m :: m in entry && m.toolCallId == Some(id)
  }

  /** Some message of the entry announces a call `id`. */
  ghost predicate HoldsCall(entry: seq<Message>, id: string) {
    exists m :: m in entry && Announces(m, id)
  }

  lemma {:induction false} IdsMean(entry: seq<Message>, id: string)
    ensures id in RequiredIds(entry) <==> HoldsResultFor(entry, id)
    ensures id in SuppliedIds(entry) <==> HoldsCall(entry, id)
  {
    if entry != [] {
      IdsMean(entry[1..], id);
      assert forall m :: m in entry <==> m == entry[0] || m in entry[1..];
      assert id in AnnouncedIds(entry[0]) <==> Announces(entry[0], id);
    }
  }

  /** Entry `i` announces every call that a result in entry `j` answers. */
  ghost predicate AnnouncesAllOf(h: History, i: nat, j: nat)
    requires j in h.overrides
  {
    i in h.overrides && forall id :: HoldsResultFor(h.overrides[j], id) ==> HoldsCall(h.overrides[i], id)
  }

  /** The window starts as requested, unless the requested entry holds results whose calls some
      earlier entry announces all; then it starts with the last such entry. */
  ghost predicate StartsAt(h: History, requested: nat, start: nat) {
    if && requested in h.overrides && (exists id :: HoldsResultFor(h.overrides[requested], id))
       && (exists i: nat :: i < requested && AnnouncesAllOf(h, i, requested))
    then
      && start < requested && AnnouncesAllOf(h, start, requested)
      && forall i :: start < i < requested ==> !AnnouncesAllOf(h, i, requested)
    else start == requested
  }

  lemma SuppliesMeans(h: History, i: nat, j: nat)
    requires j in h.overrides
    ensures Supplies(h, i, RequiredIds(h.overrides[j])) <==> AnnouncesAllOf(h, i, j)
  {
    if i in h.overrides {
      forall id ensures id in RequiredIds(h.overrides[j]) <==> HoldsResultFor(h.overrides[j], id) {
        IdsMean(h.overrides[j], id);
      }
      forall id ensures id in SuppliedIds(h.overrides[i]) <==> HoldsCall(h.overrides[i], id) {
        IdsMean(h.overrides[i], id);
      }
    }
  }

  lemma SafeStartIsStart(h: History, requested: nat)
    ensures StartsAt(h, requested, SafeStart(h, requested))
  {
    if requested in h.overrides {
      var required := RequiredIds(h.overrides[requested]);
      forall id ensures id in required <==> HoldsResultFor(h.overrides[requested], id) {
        IdsMean(h.overrides[requested], id);
      }
      forall i: nat ensures Supplies(h, i, required) <==> AnnouncesAllOf(h, i, requested) {
        SuppliesMeans(h, i, requested);
      }
      assert required == {} <==> !exists id :: HoldsResultFor(h.overrides[requested], id);
    }
  }

  // ----- What a window stores -----

  function Flat(entries: seq<seq<Message>>): seq<Message> {
    if entries == [] then [] else entries[0] + Flat(entries[1..])
  }

  /** An entry is the protocol messages pushed for it, or the plain message itself. */
  predicate StoredAs(h: History, i: nat, entry: seq<Message>)
    requires i < |h.plain|
  {
    if i in h.overrides then entry == h.overrides[i]
    else entry == [Message(h.plain[i].role, Some(h.plain[i].content), None, None, None)]
  }

  /** The entries from `start` on. */
  function EntriesFrom(h: History, start: nat): (entries: seq<seq<Message>>)
    requires start <= |h.plain|
    ensures |entries| == |h.plain| - start
    ensures forall k :: 0 <= k < |entries| ==> StoredAs(h, start + k, entries[k])
    decreases |h.plain| - start
  {
    if start == |h.plain| then []
    else
      var later := EntriesFrom(h, start + 1);
      assert forall k :: 0 <= k < |later| ==> StoredAs(h, start + 1 + k, later[k]);
      [Entry(h, start)] + later
  }

  lemma {:induction false} StoredFromIsFlat(h: History, start: nat)
    requires start <= |h.plain|
    ensures StoredFrom(h, start) == Flat(EntriesFrom(h, start))
    decreases |h.plain| - start
  {
    if start < |h.plain| {
      StoredFromIsFlat(h, start + 1);
      assert EntriesFrom(h, start)[1..] == EntriesFrom(h, start + 1);
    }
  }

  /** Apart from inserted results, the window is the entries from its start on, in order. */
  ghost predicate ShowsEntries(h: History, requested: nat, rendered: seq<Rendered>) {
    exists start: nat ::
      && StartsAt(h, requested, start)
      && StoredOnly(rendered) == if start >= |h.plain| then [] else Flat(EntriesFrom(h, start))
  }

  lemma WindowIsEntries(h: History, requested: nat)
    ensures ShowsEntries(h, requested, RenderedFrom(h, requested))
  {
    var start := SafeStart(h, requested);
    SafeStartIsStart(h, requested);
    RenderingOnlyInserts([], StoredFrom(h, start));
    if start < |h.plain| {
      StoredFromIsFlat(h, start);
    }
  }

  function RenderedFrom(h: History, start: nat): seq<Rendered> {
    Render([], StoredFrom(h, SafeStart(h, start)))
  }

  /** Entry `i` holds results. */
  predicate HoldsResults(o: Overrides, i: nat) {
    i in o && RequiredIds(o[i]) != {}
  }

  /** Entry `t` is a turn, and everything after it up to `end` holds results and announces nothing. */
  ghost predicate LastTurn(o: Overrides, t: nat, end: nat) {
    && t < end && t in o && !HoldsResults(o, t)
    && forall k :: t < k < end ==> HoldsResults(o, k) && SuppliedIds(o[k]) == {}
  }

  /** Entry `i` holds results and stands among the results after turn `t`, which announced the
      calls they answer. */
  ghost predicate AnswersTurn(o: Overrides, t: nat, i: nat) {
    HoldsResults(o, i) && LastTurn(o, t, i) && RequiredIds(o[i]) <= SuppliedIds(o[t])
  }

  ghost predicate AnswersSomeTurn(o: Overrides, i: nat) {
    exists t: nat :: AnswersTurn(o, t, i)
  }

  /** Result entries follow the turn that announced their calls, directly or after other results
      of that turn. */
  ghost predicate ResultsFollowTheirTurn(h: History) {
    forall i: nat :: HoldsResults(h.overrides, i) ==> AnswersSomeTurn(h.overrides, i)
  }

  lemma {:induction false} EntryHasNoOrphans(known: set<string>, entry: seq<Message>, rest: seq<Message>)
    requires RequiredIds(entry) <= known
    requires NoOrphans(known + SuppliedIds(entry), rest)
    ensures NoOrphans(known, entry + rest)
    decreases |entry|
  {
    if entry == [] {
      assert known + SuppliedIds(entry) == known && entry + rest == rest;
    } else {
      var m, tail := entry[0], entry[1..];
      assert known + AnnouncedIds(m) + SuppliedIds(tail) == known + SuppliedIds(entry);
      EntryHasNoOrphans(known + AnnouncedIds(m), tail, rest);
      assert (entry + rest)[1..] == tail + rest;
    }
  }

  /** The turns of results from `start` on that lie before it announced only known calls. */
  ghost predicate KnowsEarlierTurns(o: Overrides, start: nat, known: set<string>) {
    forall t: nat, i: nat :: AnswersTurn(o, t, i) && t < start <= i ==> SuppliedIds(o[t]) <= known
  }

  lemma KnowsNextTurn(h: History, start: nat, known: set<string>)
    requires start < |h.plain| && KnowsEarlierTurns(h.overrides, start, known)
    ensures KnowsEarlierTurns(h.overrides, start + 1, known + SuppliedIds(Entry(h, start)))
  {
  }

  lemma {:induction false} StoredHasNoOrphans(h: History, start: nat, known: set<string>)
    requires ResultsFollowTheirTurn(h) && KnowsEarlierTurns(h.overrides, start, known)
    ensures NoOrphans(known, StoredFrom(h, start))
    decreases |h.plain| - start
  {
    if start < |h.plain| {
      var entry := Entry(h, start);
      KnowsNextTurn(h, start, known);
      StoredHasNoOrphans(h, start + 1, known + SuppliedIds(entry));
      ResultsAreKnown(h, start, known);
      EntryHasNoOrphans(known, entry, StoredFrom(h, start + 1));
    }
  }

  lemma ResultsAreKnown(h: History, start: nat, known: set<string>)
    requires ResultsFollowTheirTurn(h) && KnowsEarlierTurns(h.overrides, start, known) && start < |h.plain|
    ensures RequiredIds(Entry(h, start)) <= known
  {
    if HoldsResults(h.overrides, start) {
      var t: nat :| AnswersTurn(h.overrides, t, start);
    }
  }

  /** A window never starts among the results of a turn. */
  lemma SafeStartHoldsNoResults(h: History, start: nat)
    requires ResultsFollowTheirTurn(h)
    ensures !HoldsResults(h.overrides, SafeStart(h, start))
  {
    if HoldsResults(h.overrides, start) {
      var t: nat :| AnswersTurn(h.overrides, t, start);
      var required := RequiredIds(h.overrides[start]);
      assert Supplies(h, t, required);
      assert forall k :: t < k < start ==> !Supplies(h, k, required);
      assert LastSupplier(h, start, required) == Some(t);
    }
  }

  lemma NoTurnIsCut(o: Overrides, start: nat)
    requires !HoldsResults(o, start)
    ensures KnowsEarlierTurns(o, start, {})
  {
  }

  /** For every requested start, no result in the rendered window lacks its announcing call
      earlier in the window. */
  lemma WindowHasNoOrphans(h: History, start: nat)
    requires ResultsFollowTheirTurn(h)
    ensures NoOrphans({}, Messages(RenderedFrom(h, start)))
  {
    var from := SafeStart(h, start);
    SafeStartHoldsNoResults(h, start);
    NoTurnIsCut(h.overrides, from);
    StoredHasNoOrphans(h, from, {});
    RenderingAddsNoOrphans({}, [], StoredFrom(h, from));
  }

  // ----- Appending keeps the pairing -----

  function Appended(h: History, m: ChatMessage, entry: seq<Message>): History {
    History(h.plain + [m], h.overrides[|h.plain| := entry])
  }

  /** Only stored entries have protocol messages. */
  ghost predicate InRange(h: History) {
    forall i :: i in h.overrides ==> i < |h.plain|
  }

  /** What the results of `entry` answer was announced by the last turn. */
  ghost predicate AnswersLastTurn(h: History, entry: seq<Message>) {
    RequiredIds(entry) != {} ==>
      exists t: nat :: LastTurn(h.overrides, t, |h.plain|) && RequiredIds(entry) <= SuppliedIds(h.overrides[t])
  }

  /** A turn keeps its results when an entry is added behind them. */
  lemma TurnStays(o: Overrides, t: nat, end: nat, n: nat, entry: seq<Message>)
    requires LastTurn(o, t, end) && end <= n
    ensures LastTurn(o[n := entry], t, end)
  {
    var o' := o[n := entry];
    forall k | t < k < end ensures HoldsResults(o', k) && SuppliedIds(o'[k]) == {} {
      assert HoldsResults(o, k) && o'[k] == o[k];
    }
  }

  lemma AppendKeepsPairing(h: History, m: ChatMessage, entry: seq<Message>)
    requires InRange(h) && ResultsFollowTheirTurn(h) && AnswersLastTurn(h, entry)
    ensures ResultsFollowTheirTurn(Appended(h, m, entry))
  {
    var n, o := |h.plain|, h.overrides;
    var o' := o[n := entry];
    forall i: nat | HoldsResults(o', i) ensures AnswersSomeTurn(o', i) {
      if i == n {
        var t: nat :| LastTurn(o, t, n) && RequiredIds(entry) <= SuppliedIds(o[t]);
        TurnStays(o, t, n, n, entry);
        assert AnswersTurn(o', t, i);
      } else {
        assert HoldsResults(o, i);
        var t: nat :| AnswersTurn(o, t, i);
        TurnStays(o, t, i, n, entry);
        assert AnswersTurn(o', t, i);
      }
    }
  }

  function ToPlain(m: Message): ChatMessage {
    ChatMessage(m.role, if m.content.Some? then m.content.value else "")
  }

  /** Every message of a trace becomes an entry of its own. */
  function Extended(h: History, trace: seq<Message>): History
    decreases |trace|
  {
    if trace == [] then h else Extended(Appended(h, ToPlain(trace[0]), [trace[0]]), trace[1..])
  }

  /** Each result of the trace answers a call of the last turn before it. */
  ghost predicate TraceAnswersTurns(h: History, trace: seq<Message>)
    decreases |trace|
  {
    trace == [] ||
    (AnswersLastTurn(h, [trace[0]]) && TraceAnswersTurns(Appended(h, ToPlain(trace[0]), [trace[0]]), trace[1..]))
  }

  lemma {:induction false} TraceKeepsPairing(h: History, trace: seq<Message>)
    requires InRange(h) && ResultsFollowTheirTurn(h) && TraceAnswersTurns(h, trace)
    ensures ResultsFollowTheirTurn(Extended(h, trace))
    decreases |trace|
  {
    if trace != [] {
      AppendKeepsPairing(h, ToPlain(trace[0]), [trace[0]]);
      TraceKeepsPairing(Appended(h, ToPlain(trace[0]), [trace[0]]), trace[1..]);
    }
  }

  // ----- The conversation object -----

  class ProtocolConversation {
    var plain: seq<ChatMessage>
    var overrides: Overrides

    ghost function View(): History
      reads this
    {
      History(plain, overrides)
    }

    ghost predicate Valid()
      reads this
    {
      InRange(View())
    }

    constructor ()
      ensures Valid() && View() == History([], map[])
    {
      plain := [];
      overrides := map[];
    }

    method Push(message: ChatMessage)
      requires Valid()
      modifies this
      ensures Valid() && View() == History(old(plain) + [message], old(overrides))
      ensures old(ResultsFollowTheirTurn(View())) ==> ResultsFollowTheirTurn(View())
    {
      plain := plain + [message];
    }

    /** Results of the last turn keep the pairing, and so does anything that is no result. */
    method PushWithProtocol(message: ChatMessage, protocol: seq<Message>)
      requires Valid()
      modifies this
      ensures Valid() && View() == Appended(old(View()), message, protocol)
      ensures old(ResultsFollowTheirTurn(View()) && AnswersLastTurn(View(), protocol)) ==> ResultsFollowTheirTurn(View())
    {
      ghost var before := View();
      var index := |plain|;
      plain := plain + [message];
      overrides := overrides[index := protocol];
      if ResultsFollowTheirTurn(before) && AnswersLastTurn(before, protocol) {
        AppendKeepsPairing(before, message, protocol);
      }
    }

    method ExtendProtocolTrace(trace: seq<Message>)
      requires Valid()
      modifies this
      ensures Valid() && View() == Extended(old(View()), trace)
      ensures old(ResultsFollowTheirTurn(View()) && TraceAnswersTurns(View(), trace)) ==> ResultsFollowTheirTurn(View())
    {
      ghost var before := View();
      assert trace[0..] == trace;
      for i := 0 to |trace|
        invariant Valid() && Extended(before, trace) == Extended(View(), trace[i..])
      {
        assert trace[i..][1..] == trace[i + 1..];
        PushWithProtocol(ToPlain(trace[i]), [trace[i]]);
      }
      if ResultsFollowTheirTurn(before) && TraceAnswersTurns(before, trace) {
        TraceKeepsPairing(before, trace);
      }
    }

    /** An assistant turn never breaks the pairing of results with their turn. */
    method PushAssistantToolTurn(plainContent: string, content: string, calls: seq<WireToolCall>)
      requires Valid()
      modifies this
      ensures Valid()
      ensures View() == Appended(old(View()), ChatMessage("assistant", plainContent),
                                 [Message("assistant", Some(content), Some(calls), None, None)])
      ensures old(ResultsFollowTheirTurn(View())) ==> ResultsFollowTheirTurn(View())
    {
      var turn := [Message("assistant", Some(content), Some(calls), None, None)];
      assert RequiredIds(turn) == {};
      PushWithProtocol(ChatMessage("assistant", plainContent), turn);
    }

    /** Results that answer the last turn keep the pairing. */
    method PushToolResults(plainContent: string, results: seq<ToolResult>)
      requires Valid()
      modifies this
      ensures Valid()
      ensures View() == Appended(old(View()), ChatMessage("user", plainContent), ResultMessages(results))
      ensures old(ResultsFollowTheirTurn(View()) && ResultsAnswerLastTurn(View(), results)) ==>
                ResultsFollowTheirTurn(View())
    {
      IdsOfResults(results);
      PushWithProtocol(ChatMessage("user", plainContent), ResultMessages(results));
    }

    method ProtocolSafeStart(requested: nat) returns (start: nat)
      ensures start == SafeStart(View(), requested)
      ensures StartsAt(View(), requested, start)
    {
      start := SearchStart(requested);
      SafeStartIsStart(View(), requested);
    }

    /** The backward search of the source, entry by entry. */
    method SearchStart(requested: nat) returns (start: nat)
      ensures start == SafeStart(View(), requested)
    {
      if requested !in overrides {
        return requested;
      }
      var required := RequiredIds(overrides[requested]);
      if required == {} {
        return requested;
      }
      var index := requested;
      while index > 0
        invariant LastSupplier(View(), requested, required) == LastSupplier(View(), index, required)
      {
        index := index - 1;
        if index in overrides && required <= SuppliedIds(overrides[index]) {
          return index;
        }
      }
      return requested;
    }

    /** The messages are a rendering of the entries from the start on, and the reported ids those of
        the inserted results. */
    method ProtocolWindow(start: nat) returns (w: Window)
      ensures w.messages == Messages(RenderedFrom(View(), start))
      ensures w.interrupted == InsertedIds(RenderedFrom(View(), start))
      ensures ShowsEntries(View(), start, RenderedFrom(View(), start))
    {
      w := RenderWindow(start);
      WindowIsEntries(View(), start);
    }

    method RenderWindow(start: nat) returns (w: Window)
      ensures w.messages == Messages(RenderedFrom(View(), start))
      ensures w.interrupted == InsertedIds(RenderedFrom(View(), start))
    {
      var from := SearchStart(start);
      var messages: seq<Message>, interrupted: seq<string>, pending: seq<PendingCall> := [], [], [];
      ghost var target := RenderedFrom(View(), start);
      var index := from;
      while index < |plain|
        invariant RendersTo(target, messages, interrupted, Render(pending, StoredFrom(View(), index)))
        decreases |plain| - index
      {
        var protocol := if index in overrides then overrides[index] else [Plain(plain[index])];
        messages, interrupted, pending :=
          AppendEntry(messages, interrupted, pending, protocol, StoredFrom(View(), index + 1), target);
        index := index + 1;
      }
      FinishWindow(target, messages, interrupted, pending);
      messages, interrupted := CloseInterruptedCalls(messages, pending, interrupted);
      w := Window(messages, interrupted);
    }

    method Clear()
      modifies this
      ensures Valid() && View() == History([], map[])
    {
      plain := [];
      overrides := map[];
    }
  }

  function ResultMessages(results: seq<ToolResult>): seq<Message> {
    seq(|results|, i requires 0 <= i < |results| => ToolResultMessage(results[i]))
  }

  /** The last turn, with nothing but results after it, announced every call that `results` answer. */
  ghost predicate ResultsAnswerLastTurn(h: History, results: seq<ToolResult>) {
    exists t: nat :: && LastTurn(h.overrides, t, |h.plain|)
                     && forall r :: r in results ==> r.callId in SuppliedIds(h.overrides[t])
  }

  lemma {:induction false} IdsOfResults(results: seq<ToolResult>)
    ensures RequiredIds(ResultMessages(results)) == set r | r in results :: r.callId
  {
    if results != [] {
      assert ResultMessages(results)[1..] == ResultMessages(results[1..]);
      IdsOfResults(results[1..]);
      assert forall r :: r in results <==> r == results[0] || r in results[1..];
    }
  }

  method CloseInterruptedCalls(messages: seq<Message>, pending: seq<PendingCall>, interrupted: seq<string>)
      returns (messages': seq<Message>, interrupted': seq<string>)
    ensures messages' == messages + Messages(CloseAll(pending))
    ensures interrupted' == interrupted + Ids(pending)
  {
    messages', interrupted' := messages, interrupted;
    for i := 0 to |pending|
      invariant messages' == messages + Messages(CloseAll(pending))[..i]
      invariant interrupted' == interrupted + Ids(pending)[..i]
    {
      interrupted' := interrupted' + [pending[i].id];
      messages' := messages' + [ToolResultMessage(ToolResult(pending[i].name, pending[i].id, INTERRUPTED))];
    }
  }

  /** What is written so far, followed by `rest`, is the whole rendering. */
  ghost predicate RendersTo(target: seq<Rendered>, messages: seq<Message>, interrupted: seq<string>, rest: seq<Rendered>) {
    && Messages(target) == messages + Messages(rest)
    && InsertedIds(target) == interrupted + InsertedIds(rest)
  }

  /** The messages of one entry, in order. */
  method AppendEntry(messages: seq<Message>, interrupted: seq<string>, pending: seq<PendingCall>,
                     protocol: seq<Message>, ghost later: seq<Message>, ghost target: seq<Rendered>)
      returns (messages': seq<Message>, interrupted': seq<string>, pending': seq<PendingCall>)
    requires RendersTo(target, messages, interrupted, Render(pending, protocol + later))
    ensures RendersTo(target, messages', interrupted', Render(pending', later))
  {
    messages', interrupted', pending' := messages, interrupted, pending;
    assert protocol[0..] == protocol;
    for i := 0 to |protocol|
      invariant RendersTo(target, messages', interrupted', Render(pending', protocol[i..] + later))
    {
      FirstOfRest(protocol, i, later);
      messages', interrupted', pending' :=
        AppendMessage(messages', interrupted', pending', protocol[i], protocol[i + 1..] + later, target);
    }
    assert protocol[|protocol|..] + later == later;
  }

  lemma FirstOfRest(protocol: seq<Message>, i: nat, later: seq<Message>)
    requires i < |protocol|
    ensures protocol[i..] + later == [protocol[i]] + (protocol[i + 1..] + later)
  {
    assert protocol[i..] == [protocol[i]] + protocol[i + 1..];
  }

  /** One message: close what it interrupts, drop the call it answers, add the calls it announces. */
  method AppendMessage(messages: seq<Message>, interrupted: seq<string>, pending: seq<PendingCall>,
                       message: Message, ghost rest: seq<Message>, ghost target: seq<Rendered>)
      returns (messages': seq<Message>, interrupted': seq<string>, pending': seq<PendingCall>)
    requires RendersTo(target, messages, interrupted, Render(pending, [message] + rest))
    ensures RendersTo(target, messages', interrupted', Render(pending', rest))
  {
    messages', interrupted', pending' := messages, interrupted, pending;
    if message.role != "tool" && pending != [] {
      messages', interrupted' := CloseInterruptedCalls(messages, pending, interrupted);
      pending' := [];
    }
    if message.role == "tool" && message.toolCallId.Some? {
      pending' := Retain(pending', message.toolCallId.value);
    }
    assert pending' == OpenBefore(pending, message);
    assert messages' == messages + ClosingMessages(pending, message);
    assert interrupted' == interrupted + if IsTool(message) then [] else Ids(pending);
    messages' := messages' + [message];
    pending' := pending' + Announced(message);
    RenderOne(target, messages, interrupted, pending, message, rest);
  }

  lemma RenderOne(target: seq<Rendered>, messages: seq<Message>, interrupted: seq<string>,
                  pending: seq<PendingCall>, m: Message, rest: seq<Message>)
    requires RendersTo(target, messages, interrupted, Render(pending, [m] + rest))
    ensures RendersTo(target,
                      messages + ClosingMessages(pending, m) + [m],
                      interrupted + (if IsTool(m) then [] else Ids(pending)),
                      Render(OpenAfter(pending, m), rest))
  {
    var after := Render(OpenAfter(pending, m), rest);
    assert ([m] + rest)[1..] == rest;
    RenderUnfold(pending, [m] + rest);
    InsertedIdsConcat(Write(pending, m), after);
    WriteParts(pending, m);
    var closing := ClosingMessages(pending, m);
    Regroup(messages, closing, [m] + Messages(after));
    Regroup(messages + closing, [m], Messages(after));
    Regroup(interrupted, if IsTool(m) then [] else Ids(pending), InsertedIds(after));
  }

  lemma FinishWindow(target: seq<Rendered>, messages: seq<Message>, interrupted: seq<string>, pending: seq<PendingCall>)
    requires RendersTo(target, messages, interrupted, Render(pending, []))
    ensures Messages(target) == messages + Messages(CloseAll(pending))
    ensures InsertedIds(target) == interrupted + Ids(pending)
  {
    ClosingIsSynthetic(pending);
  }
}
