/** One agent session: a state machine driven by model replies, human approvals and the
    outcomes of invoked sub-machines.

    `Session` is the session's value and `Apply` one operation on it; the class `ExecutionState`
    performs the operations in place.  `Run` folds an arbitrary interleaving of operations, and
    the theorems at the end of the module hold in every session that such a run can reach.
    Transition resolution is an arbitrary deterministic function of state, event, context and
    definition. */
module Executor {
  import opened Wrappers
  import opened Json
  import opened Machine

  datatype InvokeResult = InvokeResult(machine: string, onComplete: string, onFail: Option<string>, input: Option<Value>)

  datatype TransitionResult = TransitionResult(
    newState: string,
    newContext: Value,
    requiresApproval: bool,
    approvalMessage: Option<string>,
    invoke: Option<InvokeResult>)

  datatype TransitionError = NoMatchingTransition | GuardFailed | StateNotFound | InvalidDefinition

  type Resolver = (string, string, Value, MachineDefinition) -> Result<TransitionResult, TransitionError>

  datatype Status =
    | Running
    | AwaitingApproval(event: string, message: string)
    | AwaitingInvoke(invoke: InvokeResult)
    | Completed
    | Failed(error: string)

  datatype StepRecord = StepRecord(
    stepNumber: nat,
    state: string,
    toolsRequested: seq<string>,
    transitionEvent: Option<string>,
    llmResponse: string)

  /** What a model reply asks for. */
  datatype Action = Action(transition: Option<string>, error: Option<string>, tools: seq<string>)

  datatype ChatOutcome = Reply(raw: string, action: Action) | ChatFailed(detail: string)

  datatype ExecutionError =
    | NotRunning(status: Status)
    | NotAwaitingApproval(status: Status)
    | NotAwaitingInvoke(status: Status)
    | Chat(detail: string)
    | Transition(cause: TransitionError)
    | MaxIterationsExceeded(state: string, limit: nat)

  datatype Session = Session(
    currentState: string,
    context: Value,
    stepCount: nat,
    status: Status,
    steps: seq<StepRecord>)

  // ----- The operations on session values -----

  /** How many records at the end of `steps` are in `state`. */
  function TrailingRun(steps: seq<StepRecord>, state: string): (n: nat)
    ensures n <= |steps|
    ensures forall k :: |steps| - n <= k < |steps| ==> steps[k].state == state
    ensures n < |steps| ==> steps[|steps| - n - 1].state != state
  {
    if steps == [] || steps[|steps| - 1].state != state then 0
    else 1 + TrailingRun(steps[..|steps| - 1], state)
  }

  function MaxIterations(definition: MachineDefinition, state: string): Option<nat> {
    if state in definition.states then definition.states[state].maxIterations else None
  }

  predicate IterationsExhausted(definition: MachineDefinition, s: Session) {
    var limit := MaxIterations(definition, s.currentState);
    limit.Some? && TrailingRun(s.steps, s.currentState) >= limit.value
  }

  function LandingStatus(definition: MachineDefinition, state: string): Status {
    if IsFinal(definition, state) then Completed else Running
  }

  function FailedStateOr(definition: MachineDefinition, state: string): string {
    if "failed" in definition.states then "failed" else state
  }

  function InitialSession(definition: MachineDefinition): Session {
    Session(definition.initial, definition.context, 0, Running, [])
  }

  /** Where a `FAIL` event leaves the session: along the transition if it resolves (approval and
      invocation are skipped), otherwise in `failed` when that state exists. */
  function FailNext(definition: MachineDefinition, resolve: Resolver, s: Session, error: string): Session {
    match resolve(s.currentState, "FAIL", s.context, definition)
    case Success(result) => s.(currentState := result.newState, context := result.newContext, status := Failed(error))
    case Failure(_) => s.(currentState := FailedStateOr(definition, s.currentState), status := Failed(error))
  }

  /** A resolved ordinary transition: park for approval, park for a sub-machine, or move. */
  function TransitionNext(definition: MachineDefinition, s: Session, event: string, result: TransitionResult): Session {
    if result.requiresApproval then
      s.(status := AwaitingApproval(event, ApprovalText(result)))
    else if result.invoke.Some? then
      s.(status := AwaitingInvoke(result.invoke.value))
    else
      s.(currentState := result.newState,
         context := result.newContext,
         status := if IsFinal(definition, result.newState) then Completed else s.status)
  }

  function ApprovalText(result: TransitionResult): string {
    if result.approvalMessage.Some? then result.approvalMessage.value else "Approval required"
  }

  function FailureText(action: Action): string {
    if action.error.Some? then action.error.value else "agent reported failure"
  }

  /** The reply is processed after `stepCount` was bumped; a transition error other than a failed
      guard or an unknown event keeps the bump but pushes no record. */
  function ReplyNext(definition: MachineDefinition, resolve: Resolver, s: Session, raw: string, action: Action)
    : (Session, Result<StepRecord, ExecutionError>)
  {
    var counted := s.(stepCount := s.stepCount + 1);
    var record := StepRecord(s.stepCount + 1, s.currentState, action.tools, action.transition, raw);
    if action.transition.None? then
      (counted.(steps := s.steps + [record]), Success(record))
    else if action.transition.value == "FAIL" then
      (FailNext(definition, resolve, counted, FailureText(action)).(steps := s.steps + [record]), Success(record))
    else
      var event := action.transition.value;
      match resolve(s.currentState, event, s.context, definition)
      case Success(result) =>
        (TransitionNext(definition, counted, event, result).(steps := s.steps + [record]), Success(record))
      case Failure(e) =>
        if e == GuardFailed || e == NoMatchingTransition then
          var stayed := record.(transitionEvent := None);
          (counted.(steps := s.steps + [stayed]), Success(stayed))
        else
          (counted, Failure(Transition(e)))
  }

  function StepNext(definition: MachineDefinition, resolve: Resolver, s: Session, o: ChatOutcome)
    : (Session, Result<StepRecord, ExecutionError>)
  {
    if s.status != Running then (s, Failure(NotRunning(s.status)))
    else if IterationsExhausted(definition, s) then
      (s.(status := Failed(ExhaustedText(s.currentState))),
       Failure(MaxIterationsExceeded(s.currentState, MaxIterations(definition, s.currentState).value)))
    else
      match o
      case ChatFailed(detail) => (s, Failure(Chat(detail)))
      case Reply(raw, action) => ReplyNext(definition, resolve, s, raw, action)
  }

  function ExhaustedText(state: string): string {
    "max iterations exceeded in state '" + state + "'"
  }

  function ApproveNext(definition: MachineDefinition, resolve: Resolver, s: Session): (Session, Result<(), ExecutionError>) {
    if !s.status.AwaitingApproval? then (s, Failure(NotAwaitingApproval(s.status)))
    else
      match resolve(s.currentState, s.status.event, s.context, definition)
      case Success(result) =>
        (s.(currentState := result.newState,
            context := result.newContext,
            status := LandingStatus(definition, result.newState)), Success(()))
      case Failure(e) => (s, Failure(Transition(e)))
  }

  function RejectNext(definition: MachineDefinition, s: Session, reason: string): Session {
    s.(status := Failed("approval rejected: " + reason), currentState := FailedStateOr(definition, s.currentState))
  }

  function MergeContext(parent: Value, child: Option<Value>): Value {
    if child.None? then parent
    else
      var base := if parent.Object? then parent.fields else map[];
      Object(if child.value.Object? then base + child.value.fields else base)
  }

  predicate HasField(v: Value, key: string) {
    v.Object? && key in v.fields
  }

  /** What becomes of the parent's context, key by key: without a child context nothing changes;
      otherwise it is an object with the keys of both, and the child's values go before the
      parent's.  A value that is no object has no keys. */
  ghost predicate Merged(parent: Value, child: Option<Value>, merged: Value) {
    match child
    case None => merged == parent
    case Some(v) =>
      && merged.Object?
      && (forall key :: HasField(merged, key) <==> HasField(v, key) || HasField(parent, key))
      && (forall key :: HasField(v, key) ==> HasField(merged, key) && merged.fields[key] == v.fields[key])
      && (forall key :: HasField(parent, key) && !HasField(v, key) ==>
            HasField(merged, key) && merged.fields[key] == parent.fields[key])
  }

  /** That says all about the merge. */
  lemma MergeExactly(parent: Value, child: Option<Value>, merged: Value)
    ensures merged == MergeContext(parent, child) <==> Merged(parent, child, merged)
  {
    if child.Some? && Merged(parent, child, merged) {
      var expected := MergeContext(parent, child);
      assert merged.fields.Keys == expected.fields.Keys by {
        forall key ensures key in merged.fields <==> key in expected.fields {
          assert HasField(merged, key) <==> HasField(expected, key);
        }
      }
      forall key | key in merged.fields ensures merged.fields[key] == expected.fields[key] {
        assert HasField(merged, key);
      }
      assert merged.fields == expected.fields;
    }
  }

  function CompleteInvokeNext(definition: MachineDefinition, s: Session, child: Option<Value>): (Session, Result<(), ExecutionError>) {
    if !s.status.AwaitingInvoke? then (s, Failure(NotAwaitingInvoke(s.status)))
    else
      (s.(context := MergeContext(s.context, child),
          currentState := s.status.invoke.onComplete,
          status := LandingStatus(definition, s.status.invoke.onComplete)), Success(()))
  }

  function FailInvokeNext(definition: MachineDefinition, s: Session, error: string): (Session, Result<(), ExecutionError>) {
    if !s.status.AwaitingInvoke? then (s, Failure(NotAwaitingInvoke(s.status)))
    else if s.status.invoke.onFail.Some? then
      (s.(currentState := s.status.invoke.onFail.value, status := Running), Success(()))
    else
      (s.(status := Failed("sub-machine failed: " + error),
          currentState := FailedStateOr(definition, s.currentState)), Success(()))
  }

  // ----- The session object -----

  /** The chat endpoint: an arbitrary stream of outcomes, read one at a time. */
  class Client {
    const replies: nat -> ChatOutcome
    var cursor: nat

    constructor (replies: nat -> ChatOutcome)
      ensures this.replies == replies && cursor == 0
    {
      this.replies := replies;
      cursor := 0;
    }

    method Chat() returns (outcome: ChatOutcome)
      modifies this
      ensures outcome == replies(old(cursor)) && cursor == old(cursor) + 1
    {
      outcome := replies(cursor);
      cursor := cursor + 1;
    }
  }

  class ExecutionState {
    const definition: MachineDefinition
    const resolve: Resolver
    var currentState: string
    var context: Value
    var stepCount: nat
    var status: Status
    var steps: seq<StepRecord>

    ghost function View(): Session
      reads this
    {
      Session(currentState, context, stepCount, status, steps)
    }

    constructor (definition: MachineDefinition, resolve: Resolver)
      ensures this.definition == definition && this.resolve == resolve
      ensures View() == InitialSession(definition)
    {
      this.definition := definition;
      this.resolve := resolve;
      currentState := definition.initial;
      context := definition.context;
      stepCount := 0;
      status := Running;
      steps := [];
    }

    /** The client is consulted only by a running session with iterations left. */
    method Step(client: Client) returns (r: Result<StepRecord, ExecutionError>)
      modifies this, client
      ensures (View(), r) == StepNext(definition, resolve, old(View()), client.replies(old(client.cursor)))
      ensures client.cursor == old(client.cursor)
                               + if old(status) == Running && !IterationsExhausted(definition, old(View())) then 1 else 0
    {
      if status != Running {
        return Failure(NotRunning(status));
      }
      var limit := MaxIterations(definition, currentState);
      if limit.Some? {
        var stepsInState := CountTrailing();
        if stepsInState >= limit.value {
          r := Failure(MaxIterationsExceeded(currentState, limit.value));
          status := Failed(ExhaustedText(currentState));
          return;
        }
      }
      var outcome := client.Chat();
      if outcome.ChatFailed? {
        return Failure(Chat(outcome.detail));
      }
      var action := outcome.action;
      stepCount := stepCount + 1;
      var record := StepRecord(stepCount, currentState, action.tools, None, outcome.raw);
      if action.transition.Some? {
        var event := action.transition.value;
        record := record.(transitionEvent := Some(event));
        var resolved := resolve(currentState, event, context, definition);
        if event == "FAIL" {
          if resolved.Success? {
            currentState := resolved.value.newState;
            context := resolved.value.newContext;
          } else if "failed" in definition.states {
            currentState := "failed";
          }
          status := Failed(FailureText(action));
        } else if resolved.Success? {
          var result := resolved.value;
          if result.requiresApproval {
            status := AwaitingApproval(event, ApprovalText(result));
          } else if result.invoke.Some? {
            status := AwaitingInvoke(result.invoke.value);
          } else {
            currentState := result.newState;
            context := result.newContext;
            if IsFinal(definition, result.newState) {
              status := Completed;
            }
          }
        } else if resolved.error == GuardFailed || resolved.error == NoMatchingTransition {
          record := record.(transitionEvent := None);
        } else {
          return Failure(Transition(resolved.error));
        }
      }
      steps := steps + [record];
      r := Success(record);
    }

    method CountTrailing() returns (n: nat)
      ensures n == TrailingRun(steps, currentState)
    {
      n := 0;
      while n < |steps| && steps[|steps| - 1 - n].state == currentState
        invariant n <= |steps|
        invariant TrailingRun(steps, currentState) == n + TrailingRun(steps[..|steps| - n], currentState)
      {
        assert steps[..|steps| - n][..|steps| - n - 1] == steps[..|steps| - (n + 1)];
        n := n + 1;
      }
    }

    method Approve() returns (r: Result<(), ExecutionError>)
      modifies this
      ensures (View(), r) == ApproveNext(definition, resolve, old(View()))
    {
      if !status.AwaitingApproval? {
        return Failure(NotAwaitingApproval(status));
      }
      var resolved := resolve(currentState, status.event, context, definition);
      if resolved.Failure? {
        return Failure(Transition(resolved.error));
      }
      currentState := resolved.value.newState;
      context := resolved.value.newContext;
      status := if IsFinal(definition, currentState) then Completed else Running;
      r := Success(());
    }

    method Reject(reason: string)
      modifies this
      ensures View() == RejectNext(definition, old(View()), reason)
    {
      status := Failed("approval rejected: " + reason);
      if "failed" in definition.states {
        currentState := "failed";
      }
    }

    method CompleteInvoke(child: Option<Value>) returns (r: Result<(), ExecutionError>)
      modifies this
      ensures (View(), r) == CompleteInvokeNext(definition, old(View()), child)
      ensures r.Success? <==> old(status).AwaitingInvoke?
      ensures r.Success? ==> Merged(old(context), child, context)
    {
      MergeExactly(context, child, MergeContext(context, child));
      if !status.AwaitingInvoke? {
        return Failure(NotAwaitingInvoke(status));
      }
      var onComplete := status.invoke.onComplete;
      if child.Some? {
        if !context.Object? {
          context := Object(map[]);
        }
        if child.value.Object? {
          context := Object(context.fields + child.value.fields);
        }
      }
      currentState := onComplete;
      status := Running;
      if IsFinal(definition, currentState) {
        status := Completed;
      }
      r := Success(());
    }

    method FailInvoke(error: string) returns (r: Result<(), ExecutionError>)
      modifies this
      ensures (View(), r) == FailInvokeNext(definition, old(View()), error)
    {
      if !status.AwaitingInvoke? {
        return Failure(NotAwaitingInvoke(status));
      }
      var onFail := status.invoke.onFail;
      if onFail.Some? {
        currentState := onFail.value;
        status := Running;
      } else {
        status := Failed("sub-machine failed: " + error);
        if "failed" in definition.states {
          currentState := "failed";
        }
      }
      r := Success(());
    }
  }

  // ----- Runs: any interleaving of operations -----

  datatype Op =
    | StepOp(outcome: ChatOutcome)
    | ApproveOp
    | RejectOp(reason: string)
    | CompleteInvokeOp(child: Option<Value>)
    | FailInvokeOp(error: string)

  function Apply(definition: MachineDefinition, resolve: Resolver, s: Session, op: Op): Session {
    match op
    case StepOp(outcome) => StepNext(definition, resolve, s, outcome).0
    case ApproveOp => ApproveNext(definition, resolve, s).0
    case RejectOp(reason) => RejectNext(definition, s, reason)
    case CompleteInvokeOp(child) => CompleteInvokeNext(definition, s, child).0
    case FailInvokeOp(error) => FailInvokeNext(definition, s, error).0
  }

  function Run(definition: MachineDefinition, resolve: Resolver, ops: seq<Op>): Session {
    if ops == [] then InitialSession(definition)
    else Apply(definition, resolve, Run(definition, resolve, ops[..|ops| - 1]), ops[|ops| - 1])
  }

  // ----- What every reachable session satisfies -----

  ghost predicate StepNumbersIncrease(steps: seq<StepRecord>) {
    forall i, j :: 0 <= i < j < |steps| ==> steps[i].stepNumber < steps[j].stepNumber
  }

  /** Records `i..j` are all in one state. */
  ghost predicate SameStateBlock(steps: seq<StepRecord>, i: nat, j: nat) {
    i <= j < |steps| && forall k :: i <= k <= j ==> steps[k].state == steps[i].state
  }

  ghost predicate BlocksWithinLimits(definition: MachineDefinition, steps: seq<StepRecord>) {
    forall i: nat, j: nat :: SameStateBlock(steps, i, j) && MaxIterations(definition, steps[i].state).Some? ==>
      j - i + 1 <= MaxIterations(definition, steps[i].state).value
  }

  ghost predicate TraceInvariant(definition: MachineDefinition, s: Session) {
    && StepNumbersIncrease(s.steps)
    && (forall i :: 0 <= i < |s.steps| ==> 1 <= s.steps[i].stepNumber <= s.stepCount)
    && BlocksWithinLimits(definition, s.steps)
  }

  /** A parked session can be resumed: the gated transition still resolves.  A completed one is
      in a final state. */
  ghost predicate StatusInvariant(definition: MachineDefinition, resolve: Resolver, s: Session) {
    && (s.status.AwaitingApproval? ==>
          var resolved := resolve(s.currentState, s.status.event, s.context, definition);
          resolved.Success? && resolved.value.requiresApproval)
    && (s.status.Completed? ==> IsFinal(definition, s.currentState))
  }

  lemma StepKeepsStatusInvariant(definition: MachineDefinition, resolve: Resolver, s: Session, op: Op)
    requires StatusInvariant(definition, resolve, s)
    ensures StatusInvariant(definition, resolve, Apply(definition, resolve, s, op))
  {
  }

  /** Pushing a record in a state with iterations left keeps every block within its limit. */
  lemma PushKeepsBlocks(definition: MachineDefinition, steps: seq<StepRecord>, record: StepRecord)
    requires BlocksWithinLimits(definition, steps)
    requires MaxIterations(definition, record.state).Some? ==>
               TrailingRun(steps, record.state) < MaxIterations(definition, record.state).value
    ensures BlocksWithinLimits(definition, steps + [record])
  {
    var after := steps + [record];
    forall i: nat, j: nat | SameStateBlock(after, i, j) && MaxIterations(definition, after[i].state).Some?
      ensures j - i + 1 <= MaxIterations(definition, after[i].state).value
    {
      if j < |steps| {
        assert forall k :: i <= k <= j ==> after[k] == steps[k];
        assert SameStateBlock(steps, i, j);
      } else {
        var n := TrailingRun(steps, record.state);
        assert after[j] == record && after[i].state == record.state;
        assert n < |steps| ==> after[|steps| - n - 1].state != record.state;
      }
    }
  }

  /** An operation leaves the trace alone, or appends one record for the current state, numbered
      by the new step count, while iterations are left. */
  ghost predicate Extends(definition: MachineDefinition, s: Session, next: Session) {
    && s.stepCount <= next.stepCount
    && (|| next.steps == s.steps
        || (&& |next.steps| == |s.steps| + 1 && next.steps[..|s.steps|] == s.steps
            && var record := next.steps[|s.steps|];
               && record.state == s.currentState
               && s.stepCount < record.stepNumber == next.stepCount
               && !IterationsExhausted(definition, s)))
  }

  lemma ApplyExtends(definition: MachineDefinition, resolve: Resolver, s: Session, op: Op)
    ensures Extends(definition, s, Apply(definition, resolve, s, op))
  {
  }

  lemma ExtensionKeepsTraceInvariant(definition: MachineDefinition, s: Session, next: Session)
    requires TraceInvariant(definition, s) && Extends(definition, s, next)
    ensures TraceInvariant(definition, next)
  {
    if next.steps != s.steps {
      var record := next.steps[|s.steps|];
      assert next.steps == s.steps + [record];
      PushKeepsBlocks(definition, s.steps, record);
    }
  }

  lemma {:induction false} ReachableInvariant(definition: MachineDefinition, resolve: Resolver, ops: seq<Op>)
    ensures TraceInvariant(definition, Run(definition, resolve, ops))
    ensures StatusInvariant(definition, resolve, Run(definition, resolve, ops))
  {
    if ops != [] {
      var before, op := ops[..|ops| - 1], ops[|ops| - 1];
      ReachableInvariant(definition, resolve, before);
      ApplyExtends(definition, resolve, Run(definition, resolve, before), op);
      ExtensionKeepsTraceInvariant(definition, Run(definition, resolve, before), Run(definition, resolve, ops));
      StepKeepsStatusInvariant(definition, resolve, Run(definition, resolve, before), op);
    }
  }

  /** In every reachable trace a contiguous block of records in a state with a limit is no longer
      than the limit, and step numbers strictly increase. */
  lemma TraceRespectsIterationLimits(definition: MachineDefinition, resolve: Resolver, ops: seq<Op>, i: nat, j: nat)
    requires i <= j < |Run(definition, resolve, ops).steps|
    ensures var steps := Run(definition, resolve, ops).steps;
      && (i < j ==> steps[i].stepNumber < steps[j].stepNumber)
      && steps[j].stepNumber <= Run(definition, resolve, ops).stepCount
      && (SameStateBlock(steps, i, j) && MaxIterations(definition, steps[i].state).Some? ==>
            j - i + 1 <= MaxIterations(definition, steps[i].state).value)
  {
    ReachableInvariant(definition, resolve, ops);
  }

  // ----- Approval -----

  predicate Decides(op: Op) {
    op.ApproveOp? || op.RejectOp?
  }

  /** While parked, nothing but a decision changes anything at all. */
  lemma ParkedSessionIsFrozen(definition: MachineDefinition, resolve: Resolver, s: Session, op: Op)
    requires s.status.AwaitingApproval? && !Decides(op)
    ensures Apply(definition, resolve, s, op) == s
  {
  }

  /** Operation `i` parked the session on the gated transition `event`, which resolved to `result`. */
  ghost predicate ParkedAt(definition: MachineDefinition, resolve: Resolver, ops: seq<Op>, i: nat,
                           event: string, result: TransitionResult)
  {
    && i < |ops|
    && ops[i].StepOp? && ops[i].outcome.Reply?
    && ops[i].outcome.action.transition == Some(event) && event != "FAIL"
    && var before := Run(definition, resolve, ops[..i]);
       var parked := Run(definition, resolve, ops[..i + 1]);
       && before.status == Running
       && resolve(before.currentState, event, before.context, definition) == Success(result)
       && result.requiresApproval
       && parked.currentState == before.currentState && parked.context == before.context
       && parked.status == AwaitingApproval(event, ApprovalText(result))
  }

  /** A session that waits for approval was parked by one earlier step of the run, has not
      changed since, and `approve` succeeds and lands on exactly the target and context that
      were resolved when it parked. */
  lemma {:induction false} ApprovalLandsWhereItParked(definition: MachineDefinition, resolve: Resolver, ops: seq<Op>)
      returns (i: nat, result: TransitionResult)
    requires Run(definition, resolve, ops).status.AwaitingApproval?
    ensures var s := Run(definition, resolve, ops);
      && ParkedAt(definition, resolve, ops, i, s.status.event, result)
      && (forall j :: i < j <= |ops| ==> Run(definition, resolve, ops[..j]) == s)
      && ApproveNext(definition, resolve, s) ==
         (s.(currentState := result.newState,
             context := result.newContext,
             status := LandingStatus(definition, result.newState)), Success(()))
  {
    var s := Run(definition, resolve, ops);
    var n := |ops| - 1;
    assert ops[..n + 1] == ops;
    var before := Run(definition, resolve, ops[..n]);
    if before.status.AwaitingApproval? {
      assert before == s;
      i, result := ApprovalLandsWhereItParked(definition, resolve, ops[..n]);
      assert ops[..n][..i] == ops[..i] && ops[..n][..i + 1] == ops[..i + 1];
      forall j | i < j <= |ops| ensures Run(definition, resolve, ops[..j]) == s {
        assert j <= n ==> ops[..n][..j] == ops[..j];
      }
    } else {
      i := n;
      result := StepParked(definition, resolve, before, ops[n]);
    }
  }

  /** Only a step of a running session parks it, on a gated transition that resolves. */
  lemma StepParked(definition: MachineDefinition, resolve: Resolver, s: Session, op: Op) returns (result: TransitionResult)
    requires !s.status.AwaitingApproval? && Apply(definition, resolve, s, op).status.AwaitingApproval?
    ensures var parked := Apply(definition, resolve, s, op);
      && s.status == Running && op.StepOp? && op.outcome.Reply?
      && op.outcome.action.transition == Some(parked.status.event) && parked.status.event != "FAIL"
      && resolve(s.currentState, parked.status.event, s.context, definition) == Success(result)
      && result.requiresApproval
      && parked.currentState == s.currentState && parked.context == s.context
      && parked.status.message == ApprovalText(result)
  {
    result := resolve(s.currentState, op.outcome.action.transition.value, s.context, definition).value;
  }

  /** Why an operation may move a session: a step moves only on `FAIL` or along a resolved
      transition that is neither gated nor an invocation; a gated one is entered by `approve`
      only. */
  ghost predicate MoveIsJustified(definition: MachineDefinition, resolve: Resolver, s: Session, op: Op, next: Session) {
    match op
    case StepOp(outcome) =>
      && s.status == Running && outcome.Reply? && outcome.action.transition.Some?
      && var event := outcome.action.transition.value;
         var resolved := resolve(s.currentState, event, s.context, definition);
         || (event == "FAIL" && FailsTo(definition, s, resolved, FailureText(outcome.action), next))
         || (&& resolved.Success? && !resolved.value.requiresApproval && resolved.value.invoke.None?
             && next.currentState == resolved.value.newState && next.context == resolved.value.newContext)
    case ApproveOp =>
      && s.status.AwaitingApproval?
      && var resolved := resolve(s.currentState, s.status.event, s.context, definition);
         && resolved.Success? && resolved.value.requiresApproval
         && next.currentState == resolved.value.newState && next.context == resolved.value.newContext
    case RejectOp(_) => next.currentState == "failed" && next.context == s.context && next.status.Failed?
    case CompleteInvokeOp(child) =>
      && s.status.AwaitingInvoke? && next.currentState == s.status.invoke.onComplete
      && Merged(s.context, child, next.context)
    case FailInvokeOp(_) =>
      && s.status.AwaitingInvoke? && next.context == s.context
      && next.currentState == (if s.status.invoke.onFail.Some? then s.status.invoke.onFail.value else "failed")
  }

  /** Where `FAIL` ends the session: along the transition if it resolves, whatever gate or
      invocation it has, otherwise in the failed state. */
  ghost predicate FailsTo(definition: MachineDefinition, s: Session, resolved: Result<TransitionResult, TransitionError>,
                          error: string, next: Session)
  {
    && next.status == Failed(error)
    && match resolved
       case Success(result) => next.currentState == result.newState && next.context == result.newContext
       case Failure(_) =>
         next.context == s.context && next.currentState == if "failed" in definition.states then "failed" else s.currentState
  }

  lemma EveryMoveIsJustified(definition: MachineDefinition, resolve: Resolver, ops: seq<Op>, op: Op)
    ensures var s := Run(definition, resolve, ops);
      var next := Run(definition, resolve, ops + [op]);
      next.currentState != s.currentState || next.context != s.context ==>
        MoveIsJustified(definition, resolve, s, op, next)
  {
    assert (ops + [op])[..|ops|] == ops;
    ReachableInvariant(definition, resolve, ops);
    if op.CompleteInvokeOp? {
      MergeExactly(Run(definition, resolve, ops).context, op.child, MergeContext(Run(definition, resolve, ops).context, op.child));
    }
  }

  // ----- What one step does -----

  /** The last `n` records are all in `state`. */
  ghost predicate LastRecordsIn(steps: seq<StepRecord>, n: nat, state: string) {
    n <= |steps| && forall k :: |steps| - n <= k < |steps| ==> steps[k].state == state
  }

  /** Iterations are used up exactly if as many records as allowed stand at the end of the trace. */
  lemma ExhaustedExactly(definition: MachineDefinition, s: Session)
    ensures IterationsExhausted(definition, s) <==>
            && MaxIterations(definition, s.currentState).Some?
            && LastRecordsIn(s.steps, MaxIterations(definition, s.currentState).value, s.currentState)
  {
    var n := TrailingRun(s.steps, s.currentState);
    assert LastRecordsIn(s.steps, n, s.currentState);
  }

  /** The step is counted, and its record is appended and returned. */
  ghost predicate Records(s: Session, raw: string, action: Action, event: Option<string>,
                          next: Session, r: Result<StepRecord, ExecutionError>)
  {
    && next.stepCount == s.stepCount + 1
    && r == Success(StepRecord(s.stepCount + 1, s.currentState, action.tools, event, raw))
    && next.steps == s.steps + [r.value]
  }

  ghost predicate Stays(s: Session, next: Session) {
    next.currentState == s.currentState && next.context == s.context && next.status == s.status
  }

  /** What a reply does, by what it asks for and what that resolves to. */
  ghost predicate ReplyMeans(definition: MachineDefinition, resolve: Resolver, s: Session, raw: string, action: Action,
                             next: Session, r: Result<StepRecord, ExecutionError>)
  {
    match action.transition
    case None => Records(s, raw, action, None, next, r) && Stays(s, next)
    case Some(event) =>
      var resolved := resolve(s.currentState, event, s.context, definition);
      if event == "FAIL" then
        Records(s, raw, action, Some(event), next, r) && FailsTo(definition, s, resolved, FailureText(action), next)
      else
        match resolved
        case Failure(GuardFailed) => Records(s, raw, action, None, next, r) && Stays(s, next)
        case Failure(NoMatchingTransition) => Records(s, raw, action, None, next, r) && Stays(s, next)
        case Failure(e) =>
          next.stepCount == s.stepCount + 1 && next.steps == s.steps && Stays(s, next) && r == Failure(Transition(e))
        case Success(result) =>
          && Records(s, raw, action, Some(event), next, r)
          && if result.requiresApproval then
               && next.currentState == s.currentState && next.context == s.context
               && next.status.AwaitingApproval? && next.status.event == event
             else if result.invoke.Some? then
               && next.currentState == s.currentState && next.context == s.context
               && next.status == AwaitingInvoke(result.invoke.value)
             else
               && next.currentState == result.newState && next.context == result.newContext
               && next.status == if IsFinal(definition, result.newState) then Completed else Running
  }

  /** A step of a session that does not run is refused; out of iterations it fails the session; a
      failed chat changes nothing; and a reply does what it means. */
  lemma StepMeans(definition: MachineDefinition, resolve: Resolver, s: Session, o: ChatOutcome)
    ensures var (next, r) := StepNext(definition, resolve, s, o);
      if s.status != Running then next == s && r == Failure(NotRunning(s.status))
      else if IterationsExhausted(definition, s) then
        && next.status.Failed? && next == s.(status := next.status)
        && r == Failure(MaxIterationsExceeded(s.currentState, MaxIterations(definition, s.currentState).value))
      else
        match o
        case ChatFailed(detail) => next == s && r == Failure(Chat(detail))
        case Reply(raw, action) => ReplyMeans(definition, resolve, s, raw, action, next, r)
  {
  }

  /** The other operations refuse a session that does not wait for them, take one that does where
      it was parked for, and never touch the trace.  `reject` looks at no status. */
  lemma ResumptionsMean(definition: MachineDefinition, resolve: Resolver, s: Session, op: Op)
    requires !op.StepOp?
    ensures var next := Apply(definition, resolve, s, op);
      && next.steps == s.steps && next.stepCount == s.stepCount
      && match op
         case ApproveOp =>
           if !s.status.AwaitingApproval? then next == s
           else
             (match resolve(s.currentState, s.status.event, s.context, definition)
              case Failure(_) => next == s
              case Success(result) =>
                && next.currentState == result.newState && next.context == result.newContext
                && next.status == if IsFinal(definition, result.newState) then Completed else Running)
         case RejectOp(reason) =>
           && next.status == Failed("approval rejected: " + reason) && next.context == s.context
           && next.currentState == if "failed" in definition.states then "failed" else s.currentState
         case CompleteInvokeOp(child) =>
           if !s.status.AwaitingInvoke? then next == s
           else
             && next.currentState == s.status.invoke.onComplete && Merged(s.context, child, next.context)
             && next.status == if IsFinal(definition, next.currentState) then Completed else Running
         case FailInvokeOp(error) =>
           if !s.status.AwaitingInvoke? then next == s
           else
             && next.context == s.context
             && match s.status.invoke.onFail
                case Some(state) => next.currentState == state && next.status == Running
                case None =>
                  && next.status == Failed("sub-machine failed: " + error)
                  && next.currentState == if "failed" in definition.states then "failed" else s.currentState
  {
    if op.CompleteInvokeOp? {
      MergeExactly(s.context, op.child, MergeContext(s.context, op.child));
    }
  }

  // ----- Running in a final state -----

  /** The session runs although its state is final. */
  ghost predicate RunsInFinal(definition: MachineDefinition, s: Session) {
    s.status == Running && IsFinal(definition, s.currentState)
  }

  /** The session waits for a sub-machine whose failure leads into a final state. */
  ghost predicate FailsIntoFinal(definition: MachineDefinition, s: Session) {
    && s.status.AwaitingInvoke?
    && s.status.invoke.onFail.Some? && IsFinal(definition, s.status.invoke.onFail.value)
  }

  /** `fail_invoke` does not look whether the state it resumes in is final; every other operation
      that lands in a final state ends the session. */
  lemma OnlyFailInvokeRunsInFinalState(definition: MachineDefinition, resolve: Resolver, s: Session, op: Op)
    requires !RunsInFinal(definition, s)
    ensures RunsInFinal(definition, Apply(definition, resolve, s, op)) <==> op.FailInvokeOp? && FailsIntoFinal(definition, s)
  {
  }

  /** Some session on the way through `ops` runs in a final state. */
  ghost predicate EverRunsInFinal(definition: MachineDefinition, resolve: Resolver, ops: seq<Op>) {
    exists n :: 0 <= n <= |ops| && RunsInFinal(definition, Run(definition, resolve, ops[..n]))
  }

  /** Somewhere in `ops` a sub-machine fails whose failure leads into a final state. */
  ghost predicate EverFailsIntoFinal(definition: MachineDefinition, resolve: Resolver, ops: seq<Op>) {
    exists n :: 0 <= n < |ops| && ops[n].FailInvokeOp? && FailsIntoFinal(definition, Run(definition, resolve, ops[..n]))
  }

  /** A session comes to run in a final state exactly when the initial state is final, which the
      constructor does not look at, or a sub-machine fails into a final state. */
  lemma {:induction false} RunsInFinalStateExactlyWhen(definition: MachineDefinition, resolve: Resolver, ops: seq<Op>)
    ensures EverRunsInFinal(definition, resolve, ops) <==>
            IsFinal(definition, definition.initial) || EverFailsIntoFinal(definition, resolve, ops)
  {
    if IsFinal(definition, definition.initial) {
      assert RunsInFinal(definition, Run(definition, resolve, ops[..0]));
    } else if ops != [] {
      var m := |ops| - 1;
      var before := ops[..m];
      RunsInFinalStateExactlyWhen(definition, resolve, before);
      assert forall n :: 0 <= n <= m ==> before[..n] == ops[..n];
      assert ops[..|ops|] == ops;
      if !EverRunsInFinal(definition, resolve, before) {
        assert !RunsInFinal(definition, Run(definition, resolve, ops[..m]));
        OnlyFailInvokeRunsInFinalState(definition, resolve, Run(definition, resolve, before), ops[m]);
      }
    }
  }

  /** Some run of the machine ends running in a final state. */
  ghost predicate CanRunInFinal(definition: MachineDefinition, resolve: Resolver) {
    exists ops :: RunsInFinal(definition, Run(definition, resolve, ops))
  }

  /** Some run of the machine ends waiting for a sub-machine whose failure leads into a final state. */
  ghost predicate CanFailIntoFinal(definition: MachineDefinition, resolve: Resolver) {
    exists ops :: FailsIntoFinal(definition, Run(definition, resolve, ops))
  }

  /** So a machine can come to run in a final state exactly when it starts in one or some run of
      it waits for a sub-machine whose failure leads into one. */
  lemma MachineRunsInFinalStateExactlyWhen(definition: MachineDefinition, resolve: Resolver)
    ensures CanRunInFinal(definition, resolve) <==>
            IsFinal(definition, definition.initial) || CanFailIntoFinal(definition, resolve)
  {
    if CanRunInFinal(definition, resolve) {
      var ops :| RunsInFinal(definition, Run(definition, resolve, ops));
      assert ops[..|ops|] == ops;
      RunsInFinalStateExactlyWhen(definition, resolve, ops);
    }
    if IsFinal(definition, definition.initial) {
      assert RunsInFinal(definition, Run(definition, resolve, []));
    }
    if CanFailIntoFinal(definition, resolve) {
      var ops :| FailsIntoFinal(definition, Run(definition, resolve, ops));
      var all := ops + [FailInvokeOp("")];
      assert all[..|ops|] == ops;
      assert RunsInFinal(definition, Run(definition, resolve, all));
    }
  }

  function ReviewMachine(initial: string): MachineDefinition {
    var review := StateDef([("REVIEW", Invoke("reviewer", "done", Some("failed")))], None, None, None, None);
    var final_ := StateDef([], Some(Final), None, None, None);
    MachineDefinition("review", initial, Null, map["work" := review, "done" := final_, "failed" := final_], None)
  }

  function ReviewResolver(state: string, event: string, context: Value, definition: MachineDefinition)
    : Result<TransitionResult, TransitionError>
  {
    if state != "work" || event != "REVIEW" then Failure(NoMatchingTransition)
    else Success(TransitionResult("done", context, false, None,
                                  Some(InvokeResult("reviewer", "done", Some("failed"), None))))
  }

  /** Both ways occur: a machine that delegates and whose sub-machine fails, and the same machine
      started in a final state. */
  lemma SessionsRunInFinalStates()
    ensures var ask := StepOp(Reply("", Action(Some("REVIEW"), None, [])));
      var s := Run(ReviewMachine("work"), ReviewResolver, [ask, FailInvokeOp("no reviewer")]);
      s.currentState == "failed" && RunsInFinal(ReviewMachine("work"), s)
    ensures RunsInFinal(ReviewMachine("failed"), Run(ReviewMachine("failed"), ReviewResolver, []))
  {
    var d := ReviewMachine("work");
    var ask := StepOp(Reply("", Action(Some("REVIEW"), None, [])));
    var both := [ask, FailInvokeOp("no reviewer")];
    assert both[..1] == [ask] && [ask][..0] == [];
    assert Run(d, ReviewResolver, []) == InitialSession(d);
    assert Run(d, ReviewResolver, [ask]).status == AwaitingInvoke(InvokeResult("reviewer", "done", Some("failed"), None));
  }
}
