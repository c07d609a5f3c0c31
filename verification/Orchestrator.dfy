/** Runs a machine to its end, invoking sub-machines recursively under step and depth budgets.

    `Outcome` says which result a run has: the session takes the turns that its status forces, one
    after the other, until the budget is used up, the session has ended or a step fails.  The method
    `RunAtDepth` produces exactly that outcome, and the theorems about runs are lemmas about it. */
module Orchestrator {
  import opened Wrappers
  import opened Json
  import opened Machine
  import opened Executor

  datatype ExecutionResult = ExecutionResult(
    success: bool,
    finalState: string,
    context: Value,
    totalSteps: nat,
    invocations: nat,
    error: Option<string>)

  datatype Orchestrator = Orchestrator(registry: map<string, MachineDefinition>, maxChildSteps: nat, maxDepth: nat)

  /** What a run finds: the runner, the resolver and the chat outcomes in the order they are read. */
  datatype World = World(orch: Orchestrator, resolve: Resolver, replies: nat -> ChatOutcome)

  /** Where a run stands: its session, what it has counted, and the next unread chat outcome. */
  datatype Config = Config(session: Session, total: nat, calls: nat, cursor: nat)

  /** One run: a machine with its step budget, at a depth, from a chat outcome on. */
  datatype Task = Task(definition: MachineDefinition, maxSteps: nat, depth: nat, cursor: nat)

  function TooDeep(): ExecutionResult {
    ExecutionResult(false, "failed", Null, 0, 0, Some("max invoke depth exceeded"))
  }

  function ResultOf(c: Config, error: Option<string>): ExecutionResult {
    ExecutionResult(error == None, c.session.currentState, c.session.context, c.total, c.calls, error)
  }

  function BudgetText(definition: MachineDefinition): string {
    "max steps exceeded in '" + definition.id + "'"
  }

  function NotFoundText(machine: string): string {
    "sub-machine '" + machine + "' not found in registry"
  }

  // ----- The turns of a run -----

  /** Which runs of children end how: the result and the next unread chat outcome. */
  type Children = (Task, ExecutionResult, nat) -> bool

  /** One turn, as the status forces it: a running session takes a step, a gated transition is
      approved, an invocation is answered with the child's own outcome. */
  ghost predicate Turn(w: World, t: Task, children: Children, c: Config, next: Config) {
    match c.session.status
    case Running => StepTurn(w, t, c, next)
    case AwaitingApproval(_, _) => next == c.(session := ApproveNext(t.definition, w.resolve, c.session).0)
    case AwaitingInvoke(invoke) =>
      if invoke.machine in w.orch.registry then ChildTurn(w, t, children, c, next, invoke.machine)
      else
        next == c.(session := FailInvokeNext(t.definition, c.session, NotFoundText(invoke.machine)).0, calls := c.calls + 1)
    case _ => false
  }

  /** A step that succeeds is counted, and has read one chat outcome. */
  ghost predicate StepTurn(w: World, t: Task, c: Config, next: Config) {
    var (s, r) := StepNext(t.definition, w.resolve, c.session, w.replies(c.cursor));
    r.Success? && next == Config(s, c.total + 1, c.calls, c.cursor + 1)
  }

  ghost predicate ChildTurn(w: World, t: Task, children: Children, c: Config, next: Config, machine: string)
    requires machine in w.orch.registry
  {
    exists r: ExecutionResult :: children(ChildTask(w, t, c, machine), r, next.cursor) && AddsChild(t, c, next, r)
  }

  function ChildTask(w: World, t: Task, c: Config, machine: string): Task
    requires machine in w.orch.registry
  {
    Task(w.orch.registry[machine], w.orch.maxChildSteps, t.depth + 1, c.cursor)
  }

  /** What the child did is added, and the invocation itself. */
  predicate AddsChild(t: Task, c: Config, next: Config, r: ExecutionResult) {
    && next.session == Resumed(t.definition, c.session, r)
    && next.total == c.total + r.totalSteps && next.calls == c.calls + 1 + r.invocations
  }

  /** The parent's session after its child ended with `r`. */
  function Resumed(definition: MachineDefinition, s: Session, r: ExecutionResult): Session {
    if r.success then CompleteInvokeNext(definition, s, Some(r.context)).0
    else FailInvokeNext(definition, s, if r.error.Some? then r.error.value else "child failed").0
  }

  /** The run ends here, with this result: the budget is looked at first. */
  ghost predicate Ends(w: World, t: Task, c: Config, r: ExecutionResult, cursor: nat) {
    if c.total >= t.maxSteps then r == ResultOf(c, Some(BudgetText(t.definition))) && cursor == c.cursor
    else
      match c.session.status
      case Completed => r == ResultOf(c, None) && cursor == c.cursor
      case Failed(error) => r == ResultOf(c, Some(error)) && cursor == c.cursor
      case Running => EndsInError(w, t, c, r, cursor)
      case _ => false
  }

  /** A step that fails is not counted; it has read a chat outcome unless iterations ran out. */
  ghost predicate EndsInError(w: World, t: Task, c: Config, r: ExecutionResult, cursor: nat) {
    var (s, stepped) := StepNext(t.definition, w.resolve, c.session, w.replies(c.cursor));
    && stepped.Failure? && r == ResultOf(c.(session := s), Some(ErrorText(stepped.error)))
    && cursor == c.cursor + if IterationsExhausted(t.definition, c.session) then 0 else 1
  }

  function Start(t: Task): Config {
    Config(InitialSession(t.definition), 0, 0, t.cursor)
  }

  /** The run stands here after `n` turns from its start, all of them within the budget. */
  ghost predicate Reached(w: World, t: Task, children: Children, c: Config, n: nat)
    decreases n, 0
  {
    if n == 0 then c == Start(t) else exists before :: Follows(w, t, children, before, c, n)
  }

  /** Turn `n` leads from `before` to `c`. */
  ghost predicate Follows(w: World, t: Task, children: Children, before: Config, c: Config, n: nat)
    requires n > 0
    decreases n - 1, 1
  {
    Reached(w, t, children, before, n - 1) && before.total < t.maxSteps && Turn(w, t, children, before, c)
  }

  /** The turns lead to an end. */
  ghost predicate RunsTo(w: World, t: Task, children: Children, r: ExecutionResult, cursor: nat) {
    exists c, n: nat :: Reached(w, t, children, c, n) && Ends(w, t, c, r, cursor)
  }

  /** The run ends with this result, and this chat outcome is the next to be read. */
  ghost predicate Outcome(w: World, t: Task, r: ExecutionResult, cursor: nat)
    decreases if t.depth > w.orch.maxDepth then 0 else w.orch.maxDepth + 1 - t.depth, 1
  {
    if t.depth > w.orch.maxDepth then r == TooDeep() && cursor == t.cursor
    else RunsTo(w, t, Below(w, t.depth), r, cursor)
  }

  /** The outcomes one level deeper. */
  ghost function Below(w: World, depth: nat): Children
    requires depth <= w.orch.maxDepth
    decreases w.orch.maxDepth + 1 - depth, 0
  {
    (t: Task, r: ExecutionResult, cursor: nat) => t.depth == depth + 1 && Outcome(w, t, r, cursor)
  }

  function ErrorText(e: ExecutionError): string {
    match e
    case NotRunning(_) => "execution not running"
    case NotAwaitingApproval(_) => "not awaiting approval"
    case NotAwaitingInvoke(_) => "not awaiting invoke"
    case Chat(detail) => "ollama error: " + detail
    case Transition(_) => "transition error"
    case MaxIterationsExceeded(state, _) => "max iterations exceeded in state '" + state + "'"
  }

  // ----- The outcome is unique -----

  /** No run of a child ends in two ways. */
  ghost predicate Functional(children: Children) {
    forall t, ra, ka, rb, kb :: children(t, ra, ka) && children(t, rb, kb) ==> ra == rb && ka == kb
  }

  lemma TurnIsUnique(w: World, t: Task, children: Children, c: Config, a: Config, b: Config)
    requires Functional(children) && Turn(w, t, children, c, a) && Turn(w, t, children, c, b)
    ensures a == b
  {
    if c.session.status.AwaitingInvoke? && c.session.status.invoke.machine in w.orch.registry {
      var child := ChildTask(w, t, c, c.session.status.invoke.machine);
      var ra: ExecutionResult :| children(child, ra, a.cursor) && AddsChild(t, c, a, ra);
      var rb: ExecutionResult :| children(child, rb, b.cursor) && AddsChild(t, c, b, rb);
    }
  }

  /** Two runs of the same task go through the same turns. */
  lemma {:induction false} ReachedIsUnique(w: World, t: Task, children: Children, a: Config, b: Config, n: nat)
    requires Functional(children) && Reached(w, t, children, a, n) && Reached(w, t, children, b, n)
    ensures a == b
    decreases n
  {
    if n > 0 {
      var a' :| Follows(w, t, children, a', a, n);
      var b' :| Follows(w, t, children, b', b, n);
      ReachedIsUnique(w, t, children, a', b', n - 1);
      TurnIsUnique(w, t, children, a', a, b);
    }
  }

  /** A longer run has gone on from where it stood after `n` turns. */
  lemma {:induction false} WentOn(w: World, t: Task, children: Children, c: Config, m: nat, n: nat)
      returns (from: Config, to: Config)
    requires Reached(w, t, children, c, m) && n < m
    ensures Reached(w, t, children, from, n) && from.total < t.maxSteps && Turn(w, t, children, from, to)
    decreases m
  {
    var before :| Follows(w, t, children, before, c, m);
    if n == m - 1 {
      from, to := before, c;
    } else {
      from, to := WentOn(w, t, children, before, m - 1, n);
    }
  }

  /** Where a run can end it cannot go on. */
  lemma EndIsLast(w: World, t: Task, children: Children, c: Config, r: ExecutionResult, cursor: nat, next: Config)
    requires Ends(w, t, c, r, cursor) && c.total < t.maxSteps
    ensures !Turn(w, t, children, c, next)
  {
  }

  lemma NoLonger(w: World, t: Task, children: Children, a: Config, n: nat, b: Config, m: nat, r: ExecutionResult, cursor: nat)
    requires Functional(children) && Reached(w, t, children, a, n) && Reached(w, t, children, b, m)
    requires Ends(w, t, a, r, cursor)
    ensures m <= n
  {
    if m > n {
      var from, to := WentOn(w, t, children, b, m, n);
      ReachedIsUnique(w, t, children, a, from, n);
      EndIsLast(w, t, children, a, r, cursor, to);
    }
  }

  lemma EndIsUnique(w: World, t: Task, c: Config, ra: ExecutionResult, ka: nat, rb: ExecutionResult, kb: nat)
    requires Ends(w, t, c, ra, ka) && Ends(w, t, c, rb, kb)
    ensures ra == rb && ka == kb
  {
  }

  lemma RunIsUnique(w: World, t: Task, children: Children, ra: ExecutionResult, ka: nat, rb: ExecutionResult, kb: nat)
    requires Functional(children) && RunsTo(w, t, children, ra, ka) && RunsTo(w, t, children, rb, kb)
    ensures ra == rb && ka == kb
  {
    var a, n: nat :| Reached(w, t, children, a, n) && Ends(w, t, a, ra, ka);
    var b, m: nat :| Reached(w, t, children, b, m) && Ends(w, t, b, rb, kb);
    NoLonger(w, t, children, a, n, b, m, ra, ka);
    NoLonger(w, t, children, b, m, a, n, rb, kb);
    ReachedIsUnique(w, t, children, a, b, n);
    EndIsUnique(w, t, a, ra, ka, rb, kb);
  }

  /** Replies, registry and resolver determine the result. */
  lemma {:induction false} OutcomeIsUnique(w: World, t: Task, ra: ExecutionResult, ka: nat, rb: ExecutionResult, kb: nat)
    requires Outcome(w, t, ra, ka) && Outcome(w, t, rb, kb)
    ensures ra == rb && ka == kb
    decreases if t.depth > w.orch.maxDepth then 0 else w.orch.maxDepth + 1 - t.depth, 1
  {
    if t.depth <= w.orch.maxDepth {
      BelowIsFunctional(w, t.depth);
      RunIsUnique(w, t, Below(w, t.depth), ra, ka, rb, kb);
    }
  }

  lemma BelowIsFunctional(w: World, depth: nat)
    requires depth <= w.orch.maxDepth
    ensures Functional(Below(w, depth))
    decreases w.orch.maxDepth + 1 - depth, 0
  {
    var below := Below(w, depth);
    forall t, ra, ka, rb, kb | below(t, ra, ka) && below(t, rb, kb) ensures ra == rb && ka == kb {
      OutcomeIsUnique(w, t, ra, ka, rb, kb);
    }
  }

  // ----- What a run has counted -----

  /** One step more than the budget can only come from children, and each level of children can
      exceed the level above by `maxChildSteps - 1` at most. */
  function StepBound(orch: Orchestrator, maxSteps: nat, depth: nat): nat {
    if depth > orch.maxDepth then 0
    else maxSteps + (orch.maxDepth - depth) * Overshoot(orch)
  }

  function Overshoot(orch: Orchestrator): nat {
    if orch.maxChildSteps == 0 then 0 else orch.maxChildSteps - 1
  }

  /** The bound of a child, added to what its parent has used so far. */
  lemma ChildFits(orch: Orchestrator, maxSteps: nat, depth: nat, used: nat, child: nat)
    requires depth <= orch.maxDepth && used < maxSteps
    requires child <= StepBound(orch, orch.maxChildSteps, depth + 1)
    ensures used + child <= StepBound(orch, maxSteps, depth)
  {
    if depth < orch.maxDepth {
      var levels, over := orch.maxDepth - depth, Overshoot(orch);
      assert levels * over == (levels - 1) * over + over;
    } else {
      assert (orch.maxDepth - depth) * Overshoot(orch) == 0;
    }
  }

  /** The accounting of a finished run, children included.  `consumed` counts the chat outcomes
      it read: every counted step read one, and only the step that ends a run can read one
      without being counted. */
  ghost predicate Accounted(orch: Orchestrator, r: ExecutionResult, definition: MachineDefinition,
                            maxSteps: nat, depth: nat, consumed: int)
  {
    && r.totalSteps <= StepBound(orch, maxSteps, depth)
    && r.invocations <= r.totalSteps
    && r.totalSteps <= consumed <= r.totalSteps + r.invocations + 1
    && (r.success <==> r.error == None)
    && (r.success ==> IsFinal(definition, r.finalState) && r.totalSteps < maxSteps)
  }

  /** The accounting of a run on its way. */
  ghost predicate Counted(w: World, t: Task, c: Config) {
    && c.session.stepCount <= c.total <= StepBound(w.orch, t.maxSteps, t.depth)
    && c.calls + (if c.session.status.AwaitingInvoke? then 1 else 0) <= c.total
    && c.total <= c.cursor - t.cursor <= c.total + c.calls
  }

  /** Only steps count, and a resumed session does not wait for another child. */
  lemma OperationCounts(definition: MachineDefinition, resolve: Resolver, s: Session, op: Op)
    requires Fits(s.status, op)
    ensures var next := Apply(definition, resolve, s, op);
      && next.stepCount <= s.stepCount + (if op.StepOp? then 1 else 0)
      && (!op.StepOp? ==> !next.status.AwaitingInvoke?)
  {
  }

  lemma BoundCoversBudget(orch: Orchestrator, maxSteps: nat, depth: nat)
    requires depth <= orch.maxDepth
    ensures maxSteps <= StepBound(orch, maxSteps, depth)
  {
    assert 0 <= (orch.maxDepth - depth) * Overshoot(orch);
  }

  /** The runs of children one level deeper are accounted for. */
  ghost predicate ChildrenAccounted(w: World, depth: nat, children: Children) {
    forall t, r, k: nat :: children(t, r, k) && t.depth == depth + 1 ==>
      Accounted(w.orch, r, t.definition, t.maxSteps, t.depth, k - t.cursor)
  }

  lemma ChildCounts(w: World, t: Task, children: Children, c: Config, next: Config, machine: string)
    requires t.depth <= w.orch.maxDepth && Counted(w, t, c) && c.total < t.maxSteps && machine in w.orch.registry
    requires ChildrenAccounted(w, t.depth, children)
    requires c.session.status.AwaitingInvoke? && ChildTurn(w, t, children, c, next, machine)
    ensures Counted(w, t, next)
  {
    var child := ChildTask(w, t, c, machine);
    var r: ExecutionResult :| children(child, r, next.cursor) && AddsChild(t, c, next, r);
    AddedCounts(w, t, c, next, r, child.definition);
  }

  lemma AddedCounts(w: World, t: Task, c: Config, next: Config, r: ExecutionResult, child: MachineDefinition)
    requires t.depth <= w.orch.maxDepth && Counted(w, t, c) && c.total < t.maxSteps
    requires c.session.status.AwaitingInvoke? && AddsChild(t, c, next, r)
    requires Accounted(w.orch, r, child, w.orch.maxChildSteps, t.depth + 1, next.cursor - c.cursor)
    ensures Counted(w, t, next)
  {
    ChildFits(w.orch, t.maxSteps, t.depth, c.total, r.totalSteps);
    OperationCounts(t.definition, w.resolve, c.session, ResumeOp(r));
  }

  /** How a turn without a child counts. */
  predicate CountsAs(c: Config, next: Config, op: Op) {
    if op.StepOp? then next.total == c.total + 1 && next.calls == c.calls && next.cursor == c.cursor + 1
    else next.total == c.total && next.cursor == c.cursor && next.calls == c.calls + if op.FailInvokeOp? then 1 else 0
  }

  lemma OwnTurnCounts(w: World, t: Task, c: Config, next: Config, op: Op)
    requires t.depth <= w.orch.maxDepth && Counted(w, t, c) && c.total < t.maxSteps
    requires Fits(c.session.status, op) && next.session == Apply(t.definition, w.resolve, c.session, op)
    requires CountsAs(c, next, op) && !op.CompleteInvokeOp?
    ensures Counted(w, t, next)
  {
    BoundCoversBudget(w.orch, t.maxSteps, t.depth);
    OperationCounts(t.definition, w.resolve, c.session, op);
  }

  lemma TurnCounts(w: World, t: Task, children: Children, c: Config, next: Config)
    requires t.depth <= w.orch.maxDepth && ChildrenAccounted(w, t.depth, children)
    requires Counted(w, t, c) && c.total < t.maxSteps && Turn(w, t, children, c, next)
    ensures Counted(w, t, next)
  {
    if c.session.status.AwaitingInvoke? && c.session.status.invoke.machine in w.orch.registry {
      ChildCounts(w, t, children, c, next, c.session.status.invoke.machine);
    } else {
      var op := TurnIsForced(w, t, children, c, next);
      OwnTurnCounts(w, t, c, next, op);
    }
  }

  lemma {:induction false} ReachedCounts(w: World, t: Task, children: Children, c: Config, n: nat)
    requires t.depth <= w.orch.maxDepth && ChildrenAccounted(w, t.depth, children)
    requires Reached(w, t, children, c, n)
    ensures Counted(w, t, c)
    decreases n
  {
    if n > 0 {
      var before :| Follows(w, t, children, before, c, n);
      ReachedCounts(w, t, children, before, n - 1);
      TurnCounts(w, t, children, before, c);
    }
  }

  lemma RunIsAccounted(w: World, t: Task, children: Children, r: ExecutionResult, cursor: nat)
    requires t.depth <= w.orch.maxDepth && ChildrenAccounted(w, t.depth, children)
    requires RunsTo(w, t, children, r, cursor)
    ensures Accounted(w.orch, r, t.definition, t.maxSteps, t.depth, cursor - t.cursor)
  {
    var c, n: nat :| Reached(w, t, children, c, n) && Ends(w, t, c, r, cursor);
    ReachedCounts(w, t, children, c, n);
    var ops := ForcedOps(w, t, children, c, n);
    ReachableInvariant(t.definition, w.resolve, ops);
  }

  /** For every stream of replies, every registry and every resolver the result is accounted for. */
  lemma {:induction false} OutcomeIsAccounted(w: World, t: Task, r: ExecutionResult, cursor: nat)
    requires Outcome(w, t, r, cursor)
    ensures Accounted(w.orch, r, t.definition, t.maxSteps, t.depth, cursor - t.cursor)
    decreases if t.depth > w.orch.maxDepth then 0 else w.orch.maxDepth + 1 - t.depth, 1
  {
    if t.depth <= w.orch.maxDepth {
      BelowIsAccounted(w, t.depth);
      RunIsAccounted(w, t, Below(w, t.depth), r, cursor);
    }
  }

  lemma BelowIsAccounted(w: World, depth: nat)
    requires depth <= w.orch.maxDepth
    ensures ChildrenAccounted(w, depth, Below(w, depth))
    decreases w.orch.maxDepth + 1 - depth, 0
  {
    var below := Below(w, depth);
    forall t, r, k: nat | below(t, r, k) && t.depth == depth + 1
      ensures Accounted(w.orch, r, t.definition, t.maxSteps, t.depth, k - t.cursor)
    {
      OutcomeIsAccounted(w, t, r, k);
    }
  }

  // ----- The run that the status forces -----

  /** What the status asks for: never a rejection, and nothing once the session has ended. */
  predicate Fits(status: Status, op: Op) {
    match status
    case Running => op.StepOp?
    case AwaitingApproval(_, _) => op.ApproveOp?
    case AwaitingInvoke(_) => op.CompleteInvokeOp? || op.FailInvokeOp?
    case _ => false
  }

  ghost predicate Obeys(definition: MachineDefinition, resolve: Resolver, ops: seq<Op>) {
    forall n :: 0 <= n < |ops| ==> Fits(Run(definition, resolve, ops[..n]).status, ops[n])
  }

  lemma RunOneMore(definition: MachineDefinition, resolve: Resolver, ops: seq<Op>, op: Op)
    ensures Run(definition, resolve, ops + [op]) == Apply(definition, resolve, Run(definition, resolve, ops), op)
    ensures Obeys(definition, resolve, ops) && Fits(Run(definition, resolve, ops).status, op) ==>
              Obeys(definition, resolve, ops + [op])
  {
    var all := ops + [op];
    assert all[..|ops|] == ops;
    assert forall n :: 0 <= n < |ops| ==> all[..n] == ops[..n] && all[n] == ops[n];
  }

  /** The operation that resumes a session with its child's result. */
  function ResumeOp(r: ExecutionResult): Op {
    if r.success then CompleteInvokeOp(Some(r.context))
    else FailInvokeOp(if r.error.Some? then r.error.value else "child failed")
  }

  lemma TurnIsForced(w: World, t: Task, children: Children, c: Config, next: Config) returns (op: Op)
    requires Turn(w, t, children, c, next)
    ensures Fits(c.session.status, op) && next.session == Apply(t.definition, w.resolve, c.session, op)
    ensures op.StepOp? ==> op.outcome == w.replies(c.cursor)
    ensures (c.session.status.AwaitingInvoke? && c.session.status.invoke.machine in w.orch.registry)
            || (CountsAs(c, next, op) && !op.CompleteInvokeOp?)
  {
    match c.session.status
    case Running => op := StepOp(w.replies(c.cursor));
    case AwaitingApproval(_, _) => op := ApproveOp;
    case AwaitingInvoke(invoke) =>
      if invoke.machine in w.orch.registry {
        var r: ExecutionResult :| children(ChildTask(w, t, c, invoke.machine), r, next.cursor) && AddsChild(t, c, next, r);
        op := ResumeOp(r);
      } else {
        op := FailInvokeOp(NotFoundText(invoke.machine));
      }
  }

  /** What an invocation does to the parent: it goes on where the child's success or failure leads,
      with the child's context merged in only on success; a machine that is not registered counts as
      a failed one. */
  ghost predicate FollowsChild(definition: MachineDefinition, s: Session, r: ExecutionResult, next: Session)
    requires s.status.AwaitingInvoke?
  {
    if r.success then
      && next.currentState == s.status.invoke.onComplete && Merged(s.context, Some(r.context), next.context)
      && next.status == if IsFinal(definition, next.currentState) then Completed else Running
    else
      && next.context == s.context
      && match s.status.invoke.onFail
         case Some(state) => next.currentState == state && next.status == Running
         case None => next.status.Failed? && next.currentState == if "failed" in definition.states then "failed" else s.currentState
  }

  lemma ParentFollowsChild(w: World, t: Task, children: Children, c: Config, next: Config) returns (r: ExecutionResult)
    requires Turn(w, t, children, c, next) && c.session.status.AwaitingInvoke?
    ensures FollowsChild(t.definition, c.session, r, next.session)
    ensures var machine := c.session.status.invoke.machine;
      if machine in w.orch.registry then
        && children(Task(w.orch.registry[machine], w.orch.maxChildSteps, t.depth + 1, c.cursor), r, next.cursor)
        && next.total == c.total + r.totalSteps && next.calls == c.calls + 1 + r.invocations
      else !r.success && next.total == c.total && next.calls == c.calls + 1 && next.cursor == c.cursor
  {
    var machine := c.session.status.invoke.machine;
    if machine in w.orch.registry {
      r :| children(ChildTask(w, t, c, machine), r, next.cursor) && AddsChild(t, c, next, r);
    } else {
      r := TooDeep().(error := Some(NotFoundText(machine)));
    }
    ResumptionsMean(t.definition, w.resolve, c.session, ResumeOp(r));
  }

  lemma {:induction false} ForcedOps(w: World, t: Task, children: Children, c: Config, n: nat) returns (ops: seq<Op>)
    requires Reached(w, t, children, c, n)
    ensures |ops| == n && Obeys(t.definition, w.resolve, ops) && Run(t.definition, w.resolve, ops) == c.session
    decreases n
  {
    ops := [];
    if n > 0 {
      var before :| Follows(w, t, children, before, c, n);
      ops := ForcedOps(w, t, children, before, n - 1);
      var op := TurnIsForced(w, t, children, before, c);
      RunOneMore(t.definition, w.resolve, ops, op);
      ops := ops + [op];
    }
  }

  /** The result describes a session that the forced operations lead to.  Its own step counter
      never passes `limit`; a step that fails to resolve is counted by the session, but not in the
      total. */
  ghost predicate DescribedBy(r: ExecutionResult, s: Session, limit: nat) {
    && r.finalState == s.currentState && r.context == s.context
    && s.stepCount <= limit && s.stepCount <= r.totalSteps + if r.success then 0 else 1
  }

  /** Why the run ended: completed within the budget, or out of budget, or in a failed session, or
      because the last step failed. */
  ghost predicate Explained(t: Task, resolve: Resolver, ops: seq<Op>, r: ExecutionResult) {
    var s := Run(t.definition, resolve, ops);
    if r.success then s.status == Completed && r.totalSteps < t.maxSteps
    else
      || r.totalSteps >= t.maxSteps
      || (s.status.Failed? && r.error == Some(s.status.error))
      || (&& ops != [] && ops[|ops| - 1].StepOp?
          && var stepped := StepNext(t.definition, resolve, Run(t.definition, resolve, ops[..|ops| - 1]), ops[|ops| - 1].outcome).1;
             stepped.Failure? && r.error == Some(ErrorText(stepped.error)))
  }

  /** The operations that the status forces lead to a session that describes and explains the
      result. */
  ghost predicate EndsIn(w: World, t: Task, r: ExecutionResult) {
    exists ops ::
      && Obeys(t.definition, w.resolve, ops)
      && DescribedBy(r, Run(t.definition, w.resolve, ops), StepBound(w.orch, t.maxSteps, t.depth))
      && Explained(t, w.resolve, ops, r)
  }

  /** Every outcome within the depth is that of a forced run. */
  lemma OutcomeIsExplained(w: World, t: Task, r: ExecutionResult, cursor: nat)
    requires Outcome(w, t, r, cursor)
    ensures if t.depth > w.orch.maxDepth then r == TooDeep() else EndsIn(w, t, r)
  {
    if t.depth <= w.orch.maxDepth {
      BelowIsAccounted(w, t.depth);
      RunIsExplained(w, t, Below(w, t.depth), r, cursor);
    }
  }

  lemma RunIsExplained(w: World, t: Task, children: Children, r: ExecutionResult, cursor: nat)
    requires t.depth <= w.orch.maxDepth && ChildrenAccounted(w, t.depth, children)
    requires RunsTo(w, t, children, r, cursor)
    ensures EndsIn(w, t, r)
  {
    var c, n: nat :| Reached(w, t, children, c, n) && Ends(w, t, c, r, cursor);
    ReachedCounts(w, t, children, c, n);
    BoundCoversBudget(w.orch, t.maxSteps, t.depth);
    var ops := ForcedOps(w, t, children, c, n);
    EndIsExplained(w, t, c, ops, r, cursor);
  }

  lemma EndIsExplained(w: World, t: Task, c: Config, ops: seq<Op>, r: ExecutionResult, cursor: nat)
    requires t.maxSteps <= StepBound(w.orch, t.maxSteps, t.depth) && Counted(w, t, c) && Ends(w, t, c, r, cursor)
    requires Obeys(t.definition, w.resolve, ops) && Run(t.definition, w.resolve, ops) == c.session
    ensures EndsIn(w, t, r)
  {
    var limit := StepBound(w.orch, t.maxSteps, t.depth);
    if c.total < t.maxSteps && c.session.status == Running {
      var op := StepOp(w.replies(c.cursor));
      RunOneMore(t.definition, w.resolve, ops, op);
      OperationCounts(t.definition, w.resolve, c.session, op);
      var all := ops + [op];
      assert all[..|all| - 1] == ops && all[|all| - 1] == op;
      assert DescribedBy(r, Run(t.definition, w.resolve, all), limit);
      assert Explained(t, w.resolve, all, r);
    } else {
      assert DescribedBy(r, c.session, limit);
      assert Explained(t, w.resolve, ops, r);
    }
  }

  /** A run that completes within the budget succeeds, with just that session. */
  lemma CompletedRunSucceeds(w: World, t: Task, c: Config, n: nat, r: ExecutionResult, cursor: nat)
    requires t.depth <= w.orch.maxDepth && Reached(w, t, Below(w, t.depth), c, n)
    requires c.total < t.maxSteps && c.session.status == Completed
    requires Outcome(w, t, r, cursor)
    ensures r == ResultOf(c, None) && r.success
  {
    RunEnds(w, t, c, n, ResultOf(c, None), c.cursor);
    OutcomeIsUnique(w, t, r, cursor, ResultOf(c, None), c.cursor);
  }

  // ----- A gated machine -----

  function ShipMachine(): MachineDefinition {
    var work := StateDef([("SHIP", Full("done", Some(true)))], None, None, None, None);
    var final_ := StateDef([], Some(Final), None, None, None);
    MachineDefinition("ship", "work", Null, map["work" := work, "done" := final_, "failed" := final_], None)
  }

  function ShipResolver(state: string, event: string, context: Value, definition: MachineDefinition)
    : Result<TransitionResult, TransitionError>
  {
    if state == "work" && event == "SHIP" then Success(TransitionResult("done", context, true, None, None))
    else Failure(NoMatchingTransition)
  }

  /** One reply that asks to ship: the gate is approved, and the run succeeds after one step. */
  lemma GatedRunIsApproved(orch: Orchestrator, replies: nat -> ChatOutcome, r: ExecutionResult, cursor: nat)
    requires replies(0) == Reply("", Action(Some("SHIP"), None, []))
    requires Outcome(World(orch, ShipResolver, replies), Task(ShipMachine(), 5, 0, 0), r, cursor)
    ensures r.success && r.finalState == "done" && r.totalSteps == 1 && r.invocations == 0
  {
    var w, t := World(orch, ShipResolver, replies), Task(ShipMachine(), 5, 0, 0);
    var s0 := InitialSession(ShipMachine());
    var s1 := StepNext(ShipMachine(), ShipResolver, s0, replies(0)).0;
    var c1 := Config(s1, 1, 0, 1);
    var c2 := c1.(session := ApproveNext(ShipMachine(), ShipResolver, s1).0);
    assert Follows(w, t, Below(w, 0), Start(t), c1, 1);
    assert Follows(w, t, Below(w, 0), c1, c2, 2);
    CompletedRunSucceeds(w, t, c2, 2, r, cursor);
  }

  // ----- The runner -----

  /** A parked session takes one more turn than a running one before it can step or end. */
  function Parked(status: Status): nat {
    if status.AwaitingApproval? || status.AwaitingInvoke? then 1 else 0
  }

  /** Terminates for every stream of replies, every registry (self-invoking machines included)
      and every deterministic resolver, with the one possible outcome. */
  method RunTask(orch: Orchestrator, resolve: Resolver, definition: MachineDefinition, client: Client,
                 maxSteps: nat, depth: nat) returns (r: ExecutionResult)
    modifies client
    ensures Outcome(World(orch, resolve, client.replies), Task(definition, maxSteps, depth, old(client.cursor)), r, client.cursor)
    decreases if depth > orch.maxDepth then 0 else orch.maxDepth + 1 - depth, 1
  {
    if depth > orch.maxDepth {
      return TooDeep();
    }
    var exec := new ExecutionState(definition, resolve);
    var totalSteps: nat, invocations: nat := 0, 0;
    ghost var w, t := World(orch, resolve, client.replies), Task(definition, maxSteps, depth, client.cursor);
    ghost var c, n: nat := Start(t), 0;
    while true
      invariant exec.definition == definition && exec.resolve == resolve && fresh(exec)
      invariant Reached(w, t, Below(w, depth), c, n)
      invariant c == Config(exec.View(), totalSteps, invocations, client.cursor)
      decreases maxSteps - totalSteps, Parked(exec.status)
    {
      if totalSteps >= maxSteps {
        r := ExecutionResult(false, exec.currentState, exec.context, totalSteps, invocations, Some(BudgetText(definition)));
        RunEnds(w, t, c, n, r, client.cursor);
        return;
      }
      match exec.status {
        case Completed =>
          r := ExecutionResult(true, exec.currentState, exec.context, totalSteps, invocations, None);
          RunEnds(w, t, c, n, r, client.cursor);
          return;
        case Failed(error) =>
          r := ExecutionResult(false, exec.currentState, exec.context, totalSteps, invocations, Some(error));
          RunEnds(w, t, c, n, r, client.cursor);
          return;
        case AwaitingApproval(_, _) =>
          ReachedStatus(w, t, c, n);
          ApproveParked(exec);
        case AwaitingInvoke(invoke) =>
          var steps, calls;
          steps, calls := InvokeChild(orch, exec, client, invoke.machine, depth, c, t);
          totalSteps := totalSteps + steps;
          invocations := invocations + calls;
        case Running =>
          var stepped := exec.Step(client);
          if stepped.Failure? {
            r := ExecutionResult(false, exec.currentState, exec.context, totalSteps, invocations,
                                 Some(ErrorText(stepped.error)));
            RunEnds(w, t, c, n, r, client.cursor);
            return;
          }
          totalSteps := totalSteps + 1;
      }
      ghost var before := c;
      c, n := Config(exec.View(), totalSteps, invocations, client.cursor), n + 1;
      assert Follows(w, t, Below(w, depth), before, c, n);
    }
  }

  lemma RunEnds(w: World, t: Task, c: Config, n: nat, r: ExecutionResult, cursor: nat)
    requires t.depth <= w.orch.maxDepth && Reached(w, t, Below(w, t.depth), c, n) && Ends(w, t, c, r, cursor)
    ensures Outcome(w, t, r, cursor)
  {
    assert RunsTo(w, t, Below(w, t.depth), r, cursor);
  }

  lemma ReachedStatus(w: World, t: Task, c: Config, n: nat)
    requires t.depth <= w.orch.maxDepth && Reached(w, t, Below(w, t.depth), c, n)
    ensures StatusInvariant(t.definition, w.resolve, c.session)
  {
    var ops := ForcedOps(w, t, Below(w, t.depth), c, n);
    ReachableInvariant(t.definition, w.resolve, ops);
  }

  /** Approval is automatic, and cannot fail because the transition resolved when it parked. */
  method ApproveParked(exec: ExecutionState)
    requires exec.status.AwaitingApproval? && StatusInvariant(exec.definition, exec.resolve, exec.View())
    modifies exec
    ensures exec.View() == ApproveNext(exec.definition, exec.resolve, old(exec.View())).0
    ensures Parked(exec.status) == 0
  {
    var _ := exec.Approve();
  }

  /** One invocation: run the child if it is registered, and resume the parent with its outcome.
      `calls` counts the invocation itself and those of the child. */
  method InvokeChild(orch: Orchestrator, exec: ExecutionState, client: Client, machine: string, depth: nat,
                     ghost c: Config, ghost t: Task) returns (steps: nat, calls: nat)
    requires depth <= orch.maxDepth && exec.status.AwaitingInvoke? && exec.status.invoke.machine == machine
    requires t.depth == depth && t.definition == exec.definition
    requires c.session == exec.View() && c.cursor == client.cursor
    modifies exec, client
    ensures var w := World(orch, exec.resolve, client.replies);
      Turn(w, t, Below(w, depth), c, Config(exec.View(), c.total + steps, c.calls + calls, client.cursor))
    ensures Parked(exec.status) == 0
    decreases orch.maxDepth + 1 - depth, 0
  {
    if machine !in orch.registry {
      var _ := exec.FailInvoke(NotFoundText(machine));
      return 0, 1;
    }
    ghost var w := World(orch, exec.resolve, client.replies);
    var child := RunTask(orch, exec.resolve, orch.registry[machine], client, orch.maxChildSteps, depth + 1);
    steps, calls := child.totalSteps, 1 + child.invocations;
    Resume(exec, child);
    ChildIsTaken(w, t, c, Config(exec.View(), c.total + steps, c.calls + calls, client.cursor), child);
  }

  method Resume(exec: ExecutionState, child: ExecutionResult)
    requires exec.status.AwaitingInvoke?
    modifies exec
    ensures exec.View() == Resumed(exec.definition, old(exec.View()), child) && Parked(exec.status) == 0
  {
    if child.success {
      var _ := exec.CompleteInvoke(Some(child.context));
    } else {
      var _ := exec.FailInvoke(if child.error.Some? then child.error.value else "child failed");
    }
  }

  lemma ChildIsTaken(w: World, t: Task, c: Config, next: Config, r: ExecutionResult)
    requires t.depth <= w.orch.maxDepth && c.session.status.AwaitingInvoke?
    requires c.session.status.invoke.machine in w.orch.registry
    requires Outcome(w, ChildTask(w, t, c, c.session.status.invoke.machine), r, next.cursor) && AddsChild(t, c, next, r)
    ensures Turn(w, t, Below(w, t.depth), c, next)
  {
    assert Below(w, t.depth)(ChildTask(w, t, c, c.session.status.invoke.machine), r, next.cursor);
  }

  /** A run at a depth: its outcome is accounted for and explained by the forced run. */
  method RunAtDepth(orch: Orchestrator, resolve: Resolver, definition: MachineDefinition, client: Client,
                    maxSteps: nat, depth: nat) returns (r: ExecutionResult)
    modifies client
    ensures Outcome(World(orch, resolve, client.replies), Task(definition, maxSteps, depth, old(client.cursor)), r, client.cursor)
    ensures Accounted(orch, r, definition, maxSteps, depth, client.cursor - old(client.cursor))
    ensures if depth > orch.maxDepth then r == TooDeep()
            else EndsIn(World(orch, resolve, client.replies), Task(definition, maxSteps, depth, old(client.cursor)), r)
  {
    ghost var w, t := World(orch, resolve, client.replies), Task(definition, maxSteps, depth, client.cursor);
    r := RunTask(orch, resolve, definition, client, maxSteps, depth);
    OutcomeIsAccounted(w, t, r, client.cursor);
    OutcomeIsExplained(w, t, r, client.cursor);
  }

  /** The whole run starts at depth 0. */
  method RunMachine(orch: Orchestrator, resolve: Resolver, definition: MachineDefinition, client: Client, maxSteps: nat)
      returns (r: ExecutionResult)
    modifies client
    ensures Outcome(World(orch, resolve, client.replies), Task(definition, maxSteps, 0, old(client.cursor)), r, client.cursor)
    ensures Accounted(orch, r, definition, maxSteps, 0, client.cursor - old(client.cursor))
    ensures EndsIn(World(orch, resolve, client.replies), Task(definition, maxSteps, 0, old(client.cursor)), r)
    ensures r.totalSteps <= maxSteps + orch.maxDepth * Overshoot(orch)
  {
    r := RunAtDepth(orch, resolve, definition, client, maxSteps, 0);
  }
}
