/** What acceptance of a moderate or dangerous machine means for the way to external tools.

    Validation looks at one target of every transition.  A session has more ways to go: every
    guarded branch, the failure state of an invocation, the fallback for unknown events and
    `$return`.  Along checked targets, external tools are only approached from states that may
    write or execute; along all moves that holds exactly when no reachable reading state has an
    unchecked target with external tools.  The last part ties the moves to runs of a session. */
module Escalation {
  import opened Wrappers
  import opened Json
  import opened Machine
  import opened Executor
  import opened Validator

  /** From the initial state through non-final states without external tools to one with them. */
  ghost predicate ToExternal(d: MachineDefinition, p: seq<string>) {
    && p != [] && p[0] == d.initial
    && (forall k :: 0 <= k < |p| ==> p[k] in d.states)
    && (forall k :: 0 <= k < |p| - 1 ==> !IsFinal(d, p[k]) && Privilege(d.states[p[k]]) < 4)
    && Privilege(d.states[p[|p| - 1]]) == 4
  }

  /** The state before the last one may write or execute. */
  ghost predicate Approached(d: MachineDefinition, p: seq<string>)
    requires forall k :: 0 <= k < |p| ==> p[k] in d.states
  {
    |p| >= 2 && 2 <= Privilege(d.states[p[|p| - 2]]) <= 3
  }

  // ----- Checked targets -----

  /** `b` is the checked target of a transition of `a` without approval. */
  ghost predicate CheckedMove(d: MachineDefinition, a: string, b: string) {
    a in d.states && exists t :: t in d.states[a].on && t.1.Target() == b && !t.1.RequiresApproval()
  }

  /** In an accepted moderate or dangerous machine, a path along checked targets without approval
      comes to external tools only from a state that may write or execute. */
  lemma ExternalToolsAreApproached(d: MachineDefinition, structural: seq<string>, p: seq<string>)
    requires Accepted(d, structural) && IsDangerous(d)
    requires ToExternal(d, p) && forall k :: 0 <= k < |p| - 1 ==> CheckedMove(d, p[k], p[k + 1])
    ensures Approached(d, p)
  {
    var n := |p| - 1;
    assert Privilege(d.states[p[0]]) < Privilege(d.states[p[n]]);
    assert CheckedMove(d, p[n - 1], p[n]);
    var t :| t in d.states[p[n - 1]].on && t.1.Target() == p[n] && !t.1.RequiresApproval();
    assert !Escalates(d, p[n - 1], t.1);
  }

  // ----- All moves -----

  const RETURN := "$return"

  /** A transition can lead to `b`: as one of its targets, or because the context decides. */
  predicate Leads(t: TransitionDef, b: string) {
    b in t.AllTargets() || (!t.Invoke? && RETURN in t.AllTargets())
  }

  /** A session in `a` may take a step. */
  predicate Steppable(d: MachineDefinition, a: string) {
    a in d.states && MaxIterations(d, a) != Some(0)
  }

  /** A session in `a` can get to `b` without approval. */
  ghost predicate FreeMove(d: MachineDefinition, a: string, b: string) {
    && Steppable(d, a)
    && (d.states[a].safeNext == Some(b)
        || exists t :: t in d.states[a].on && !t.1.RequiresApproval() && Leads(t.1, b))
  }

  /** `b` is no checked target of `a`, but can be reached: it is a later branch, a failure state,
      a fallback or the return from an interrupt. */
  ghost predicate UncheckedMove(d: MachineDefinition, a: string, b: string) {
    && Steppable(d, a)
    && (d.states[a].safeNext == Some(b)
        || exists t :: t in d.states[a].on && !t.1.RequiresApproval() && t.1.Target() != b && Leads(t.1, b))
  }

  lemma UncheckedIsFree(d: MachineDefinition, a: string, b: string)
    requires UncheckedMove(d, a, b)
    ensures FreeMove(d, a, b)
  {
  }

  /** A path of moves without approval. */
  ghost predicate FreePath(d: MachineDefinition, p: seq<string>) {
    forall k :: 0 <= k < |p| - 1 ==> FreeMove(d, p[k], p[k + 1])
  }

  /** Non-final states of the machine without external tools, from the initial one on. */
  ghost predicate Quiet(d: MachineDefinition, p: seq<string>) {
    && p != [] && p[0] == d.initial
    && forall k :: 0 <= k < |p| ==> p[k] in d.states && !IsFinal(d, p[k]) && Privilege(d.states[p[k]]) < 4
  }

  /** Moves without approval lead through quiet states to `s`. */
  ghost predicate QuietlyReached(d: MachineDefinition, s: string) {
    exists p :: Quiet(d, p) && FreePath(d, p) && p[|p| - 1] == s
  }

  ghost predicate External(d: MachineDefinition, s: string) {
    s in d.states && Privilege(d.states[s]) == 4
  }

  /** `a` only reads, and an unchecked move leads from it to external tools. */
  ghost predicate SlipsThrough(d: MachineDefinition, a: string) {
    && a in d.states && Privilege(d.states[a]) <= 1
    && exists b :: UncheckedMove(d, a, b) && External(d, b)
  }

  ghost predicate AlwaysApproached(d: MachineDefinition) {
    forall p :: ToExternal(d, p) && FreePath(d, p) ==> Approached(d, p)
  }

  lemma ExtendFreePath(d: MachineDefinition, p: seq<string>, b: string)
    requires p != [] && FreePath(d, p) && FreeMove(d, p[|p| - 1], b)
    ensures FreePath(d, p + [b])
  {
    var q := p + [b];
    forall k | 0 <= k < |q| - 1 ensures FreeMove(d, q[k], q[k + 1]) {
      if k < |p| - 1 {
        assert q[k] == p[k] && q[k + 1] == p[k + 1];
      }
    }
  }

  lemma ExtendQuiet(d: MachineDefinition, p: seq<string>, b: string)
    requires Quiet(d, p) && External(d, b)
    ensures ToExternal(d, p + [b])
  {
  }

  lemma QuietFront(d: MachineDefinition, p: seq<string>)
    requires QuietInitial(d) && ToExternal(d, p)
    ensures |p| >= 2 && Quiet(d, p[..|p| - 1])
  {
    assert Privilege(d.states[p[0]]) < Privilege(d.states[p[|p| - 1]]);
  }

  lemma SlippingPath(d: MachineDefinition, a: string)
    requires QuietlyReached(d, a) && SlipsThrough(d, a)
    ensures !AlwaysApproached(d)
  {
    var p :| Quiet(d, p) && FreePath(d, p) && p[|p| - 1] == a;
    var b :| UncheckedMove(d, a, b) && External(d, b);
    UncheckedIsFree(d, a, b);
    ExtendFreePath(d, p, b);
    ExtendQuiet(d, p, b);
    var q := p + [b];
    assert q[|q| - 2] == a;
    assert !Approached(d, q);
  }

  /** A reading state gets to external tools along unchecked moves only. */
  lemma EscalationIsUnchecked(d: MachineDefinition, a: string, b: string)
    requires NoEscalation(d) && FreeMove(d, a, b) && !IsFinal(d, a) && Privilege(d.states[a]) <= 1 && External(d, b)
    ensures UncheckedMove(d, a, b)
  {
    if d.states[a].safeNext != Some(b) {
      var t :| t in d.states[a].on && !t.1.RequiresApproval() && Leads(t.1, b);
      assert !Escalates(d, a, t.1);
    }
  }

  lemma ApproachedUnlessSlipping(d: MachineDefinition, p: seq<string>)
    requires QuietInitial(d) && NoEscalation(d) && ToExternal(d, p) && FreePath(d, p)
    requires forall a :: QuietlyReached(d, a) ==> !SlipsThrough(d, a)
    ensures Approached(d, p)
  {
    QuietFront(d, p);
    var n := |p| - 1;
    var front, a := p[..n], p[n - 1];
    assert FreePath(d, front) by {
      forall k | 0 <= k < n - 1 ensures FreeMove(d, front[k], front[k + 1]) {
        assert front[k] == p[k] && front[k + 1] == p[k + 1];
      }
    }
    assert front[|front| - 1] == a;
    assert QuietlyReached(d, a);
    assert FreeMove(d, p[n - 1], p[n]);
    if Privilege(d.states[a]) <= 1 {
      EscalationIsUnchecked(d, a, p[n]);
    }
  }

  /** In an accepted moderate or dangerous machine, all moves without approval come to external
      tools only from states that may write or execute exactly if no quietly reached state slips
      through the check. */
  lemma AlwaysApproachedExactlyWhen(d: MachineDefinition, structural: seq<string>)
    requires Accepted(d, structural) && IsDangerous(d)
    ensures AlwaysApproached(d) <==> forall a :: QuietlyReached(d, a) ==> !SlipsThrough(d, a)
  {
    if AlwaysApproached(d) {
      forall a | QuietlyReached(d, a) ensures !SlipsThrough(d, a) {
        if SlipsThrough(d, a) {
          SlippingPath(d, a);
        }
      }
    }
    if forall a :: QuietlyReached(d, a) ==> !SlipsThrough(d, a) {
      forall p | ToExternal(d, p) && FreePath(d, p) ensures Approached(d, p) {
        ApproachedUnlessSlipping(d, p);
      }
    }
  }

  /** A dangerous machine that reads first, then deploys: its deployment is gated, but it is also
      the second branch of a guarded transition. */
  function LeakyMachine(): MachineDefinition {
    var read := StateDef([("DEPLOY", Full("ship", Some(true))), ("NEXT", Guarded(["failed", "ship"]))],
                         None, Some(["read_file"]), None, None);
    var ship := StateDef([("FAIL", Simple("failed"))], None, Some(["deploy"]), None, None);
    var failed := StateDef([], Some(Final), None, None, None);
    MachineDefinition("leaky", "read", Null, map["read" := read, "ship" := ship, "failed" := failed], Some(Dangerous))
  }

  lemma LeakyPrivileges()
    ensures Privilege(LeakyMachine().states["read"]) == 1 && Privilege(LeakyMachine().states["ship"]) == 4
    ensures Privilege(LeakyMachine().states["failed"]) == 0
  {
    assert ToolPrivilege("read_file") == 1 && ToolPrivilege("deploy") == 4;
    assert MaxOf([]) == 0;
  }

  lemma LeakyStatesCanFail()
    ensures EveryStateCanFail(LeakyMachine())
  {
    var d := LeakyMachine();
    assert d.states["read"].on[1] in d.states["read"].on && d.states["ship"].on[0] in d.states["ship"].on;
    assert d.states["read"].on[1].1.Target() == "failed";
    assert Edge(d, "read", "failed") && Edge(d, "ship", "failed");
    ReachableStep(d, "read", "read", "failed");
    ReachableStep(d, "ship", "ship", "failed");
  }

  /** Its checked targets do not escalate. */
  lemma LeakyTargetsAreQuiet()
    ensures NoEscalation(LeakyMachine())
  {
    var d := LeakyMachine();
    LeakyPrivileges();
    forall s, t | s in d.states && !IsFinal(d, s) && t in d.states[s].on ensures !Escalates(d, s, t.1) {
      if s == "read" {
        assert t == d.states["read"].on[0] || t == d.states["read"].on[1];
        assert t.1.RequiresApproval() || t.1.Target() == "failed";
      }
    }
  }

  lemma LeakyIsAccepted()
    ensures Accepted(LeakyMachine(), []) && IsDangerous(LeakyMachine())
  {
    var d := LeakyMachine();
    LeakyPrivileges();
    LeakyStatesCanFail();
    LeakyTargetsAreQuiet();
    assert HasApproval(d) by {
      assert d.states["read"].on[0] in d.states["read"].on && d.states["read"].on[0].1.RequiresApproval();
    }
  }

  lemma LeakySlipsThrough()
    ensures SlipsThrough(LeakyMachine(), "read")
  {
    var d := LeakyMachine();
    LeakyPrivileges();
    var t := d.states["read"].on[1];
    assert t in d.states["read"].on && t.1.AllTargets()[1] == "ship";
    assert UncheckedMove(d, "read", "ship") && External(d, "ship");
  }

  lemma LeakyStartIsQuiet()
    ensures QuietlyReached(LeakyMachine(), "read")
  {
    LeakyPrivileges();
    assert Quiet(LeakyMachine(), ["read"]) && FreePath(LeakyMachine(), ["read"]);
  }

  /** It is accepted, and reaches external tools without approval straight from reading. */
  lemma AcceptedMachineSlipsThrough()
    ensures Accepted(LeakyMachine(), []) && IsDangerous(LeakyMachine())
    ensures QuietlyReached(LeakyMachine(), "read") && SlipsThrough(LeakyMachine(), "read")
    ensures !AlwaysApproached(LeakyMachine())
  {
    LeakyIsAccepted();
    LeakySlipsThrough();
    LeakyStartIsQuiet();
    SlippingPath(LeakyMachine(), "read");
  }

  // ----- Runs of a session -----

  /** What resolution can make of a transition. */
  ghost predicate Follows(t: TransitionDef, r: TransitionResult) {
    && r.requiresApproval == t.RequiresApproval()
    && if t.Invoke? then r.invoke.Some? && r.invoke.value.onComplete == t.onComplete && r.invoke.value.onFail == t.onFail
       else r.invoke.None? && Leads(t, r.newState)
  }

  /** Resolution answers with a transition of the state, or with its fallback. */
  ghost predicate Resolves(d: MachineDefinition, resolve: Resolver) {
    forall a, event, context :: resolve(a, event, context, d).Success? ==>
      ResolvedIn(d, a, resolve(a, event, context, d).value)
  }

  ghost predicate ResolvedIn(d: MachineDefinition, a: string, r: TransitionResult) {
    && a in d.states
    && ((d.states[a].safeNext == Some(r.newState) && !r.requiresApproval && r.invoke.None?)
        || exists t :: t in d.states[a].on && Follows(t.1, r))
  }

  /** A session that waits for a sub-machine does so on a transition of its state. */
  ghost predicate InvokeIsDeclared(d: MachineDefinition, s: Session) {
    s.status.AwaitingInvoke? ==>
      && Steppable(d, s.currentState)
      && exists t :: && t in d.states[s.currentState].on && t.1.Invoke?
                     && t.1.onComplete == s.status.invoke.onComplete && t.1.onFail == s.status.invoke.onFail
  }

  lemma {:induction false} ReachableInvokeIsDeclared(d: MachineDefinition, resolve: Resolver, ops: seq<Op>)
    requires Resolves(d, resolve)
    ensures InvokeIsDeclared(d, Run(d, resolve, ops))
  {
    if ops != [] {
      var before := ops[..|ops| - 1];
      ReachableInvokeIsDeclared(d, resolve, before);
      ApplyKeepsInvokeDeclared(d, resolve, Run(d, resolve, before), ops[|ops| - 1]);
    }
  }

  lemma ApplyKeepsInvokeDeclared(d: MachineDefinition, resolve: Resolver, s: Session, op: Op)
    requires Resolves(d, resolve) && InvokeIsDeclared(d, s)
    ensures InvokeIsDeclared(d, Apply(d, resolve, s, op))
  {
    var next := Apply(d, resolve, s, op);
    if next.status.AwaitingInvoke? && !s.status.AwaitingInvoke? {
      var r := resolve(s.currentState, op.outcome.action.transition.value, s.context, d).value;
      assert ResolvedIn(d, s.currentState, r);
    }
  }

  /** Whatever the run, a session that is not failed and was not approved moves freely. */
  lemma LiveMovesAreFree(d: MachineDefinition, resolve: Resolver, ops: seq<Op>, op: Op)
    requires Resolves(d, resolve) && !op.ApproveOp?
    ensures var s, next := Run(d, resolve, ops), Run(d, resolve, ops + [op]);
      next.currentState != s.currentState && !next.status.Failed? ==> FreeMove(d, s.currentState, next.currentState)
  {
    assert (ops + [op])[..|ops|] == ops;
    var s, next := Run(d, resolve, ops), Run(d, resolve, ops + [op]);
    ReachableInvokeIsDeclared(d, resolve, ops);
    if next.currentState != s.currentState && !next.status.Failed? && op.StepOp? {
      var r := resolve(s.currentState, op.outcome.action.transition.value, s.context, d).value;
      assert ResolvedIn(d, s.currentState, r);
    }
  }

  /** In every run of an accepted moderate or dangerous machine, a live session that gets from a
      non-final state to external tools without approval comes from a state that may write or
      execute, unless the state it comes from slips through the check. */
  lemma RunsApproachExternalTools(d: MachineDefinition, structural: seq<string>, resolve: Resolver,
                                  ops: seq<Op>, op: Op)
    requires Accepted(d, structural) && IsDangerous(d) && Resolves(d, resolve) && !op.ApproveOp?
    requires !SlipsThrough(d, Run(d, resolve, ops).currentState)
    ensures var s, next := Run(d, resolve, ops), Run(d, resolve, ops + [op]);
      !IsFinal(d, s.currentState) && External(d, next.currentState) && !next.status.Failed? ==>
        s.currentState in d.states && Privilege(d.states[s.currentState]) >= 2
  {
    var s, next := Run(d, resolve, ops), Run(d, resolve, ops + [op]);
    LiveMovesAreFree(d, resolve, ops, op);
    if next.currentState != s.currentState && !next.status.Failed? && External(d, next.currentState)
       && !IsFinal(d, s.currentState) && Privilege(d.states[s.currentState]) <= 1 {
      EscalationIsUnchecked(d, s.currentState, next.currentState);
    }
  }

  // ----- Every move is taken by a session -----

  /** A transition, or the fallback, moves straight to `b`. */
  predicate Direct(s: StateDef, b: string) {
    s.safeNext == Some(b) || exists t :: t in s.on && !t.1.RequiresApproval() && !t.1.Invoke? && Leads(t.1, b)
  }

  /** The first invocation that can end in `b`. */
  function InvokeTo(on: seq<(string, TransitionDef)>, b: string): (r: Option<TransitionDef>)
    ensures r.Some? ==> r.value.Invoke? && b in r.value.AllTargets() && exists t :: t in on && t.1 == r.value
    ensures r.None? ==> forall t :: t in on && t.1.Invoke? ==> b !in t.1.AllTargets()
  {
    if on == [] then None
    else if on[0].1.Invoke? && b in on[0].1.AllTargets() then assert on[0] in on; Some(on[0].1)
    else InvokeTo(on[1..], b)
  }

  function MoveEvent(b: string): string {
    "to " + b
  }

  /** Resolution that goes wherever the event asks, as far as the definition allows. */
  function MoveResolver(state: string, event: string, context: Value, d: MachineDefinition)
    : Result<TransitionResult, TransitionError>
  {
    if state !in d.states || |event| < 3 then Failure(NoMatchingTransition)
    else
      var b := event[3..];
      if Direct(d.states[state], b) then Success(TransitionResult(b, context, false, None, None))
      else
        match InvokeTo(d.states[state].on, b)
        case None => Failure(NoMatchingTransition)
        case Some(t) =>
          Success(TransitionResult(t.onComplete, context, false, None,
                                   Some(InvokeResult(t.machine, t.onComplete, t.onFail, None))))
  }

  lemma MoveResolverResolves(d: MachineDefinition)
    ensures Resolves(d, MoveResolver)
  {
    forall a, event, context | MoveResolver(a, event, context, d).Success?
      ensures ResolvedIn(d, a, MoveResolver(a, event, context, d).value)
    {
      MoveIsResolved(d, a, event, context);
    }
  }

  lemma MoveIsResolved(d: MachineDefinition, a: string, event: string, context: Value)
    requires MoveResolver(a, event, context, d).Success?
    ensures ResolvedIn(d, a, MoveResolver(a, event, context, d).value)
  {
    var r, b := MoveResolver(a, event, context, d).value, event[3..];
    if d.states[a].safeNext != Some(b) {
      if Direct(d.states[a], b) {
        var t :| t in d.states[a].on && !t.1.RequiresApproval() && !t.1.Invoke? && Leads(t.1, b);
        assert Follows(t.1, r);
      } else {
        var t :| t in d.states[a].on && t.1 == InvokeTo(d.states[a].on, b).value;
        assert Follows(t.1, r);
      }
    }
  }

  ghost predicate QuietState(d: MachineDefinition, a: string) {
    a in d.states && !IsFinal(d, a) && Privilege(d.states[a]) < 4
  }

  /** A live run without approvals through quiet states. */
  ghost predicate QuietRun(d: MachineDefinition, resolve: Resolver, ops: seq<Op>) {
    && QuietState(d, Run(d, resolve, ops).currentState) && !Run(d, resolve, ops).status.Failed?
    && (ops != [] ==> !ops[|ops| - 1].ApproveOp? && QuietRun(d, resolve, ops[..|ops| - 1]))
  }

  lemma QuietRunMore(d: MachineDefinition, resolve: Resolver, ops: seq<Op>, op: Op)
    requires QuietRun(d, resolve, ops) && !op.ApproveOp?
    requires var next := Apply(d, resolve, Run(d, resolve, ops), op);
      QuietState(d, next.currentState) && !next.status.Failed?
    ensures QuietRun(d, resolve, ops + [op])
    ensures Run(d, resolve, ops + [op]) == Apply(d, resolve, Run(d, resolve, ops), op)
  {
    assert (ops + [op])[..|ops|] == ops;
  }

  /** The run so far stands in `a`, ready to take a step there. */
  ghost predicate StandsIn(d: MachineDefinition, ops: seq<Op>, a: string) {
    var s := Run(d, MoveResolver, ops);
    QuietRun(d, MoveResolver, ops) && s.status == Running && s.currentState == a && TrailingRun(s.steps, a) == 0
  }

  /** After `ops`, a session in `a` moves to `b` with `op`, and is live and ready there. */
  ghost predicate MovesWith(d: MachineDefinition, ops: seq<Op>, op: Op, a: string, b: string) {
    && QuietRun(d, MoveResolver, ops) && Run(d, MoveResolver, ops).currentState == a && !op.ApproveOp?
    && var next := Apply(d, MoveResolver, Run(d, MoveResolver, ops), op);
       && next.currentState == b && !next.status.Failed?
       && (!IsFinal(d, b) ==> next.status == Running) && TrailingRun(next.steps, b) == 0
  }

  function Ask(b: string): Op {
    StepOp(Reply("", Action(Some(MoveEvent(b)), None, [])))
  }

  lemma MoveAnswer(d: MachineDefinition, a: string, b: string, context: Value)
    requires FreeMove(d, a, b)
    ensures var r := MoveResolver(a, MoveEvent(b), context, d);
      && r.Success? && !r.value.requiresApproval
      && if Direct(d.states[a], b) then r.value.newState == b && r.value.invoke == None
         else r.value.invoke.Some? && (r.value.invoke.value.onComplete == b || r.value.invoke.value.onFail == Some(b))
  {
    assert MoveEvent(b)[3..] == b;
    if !Direct(d.states[a], b) {
      var t :| t in d.states[a].on && !t.1.RequiresApproval() && Leads(t.1, b);
      assert t.1.Invoke? && b in t.1.AllTargets();
    }
  }

  lemma RecordedElsewhere(steps: seq<StepRecord>, record: StepRecord, b: string)
    requires record.state != b
    ensures TrailingRun(steps + [record], b) == 0
  {
  }

  /** Asked for `b`, a session in `a` goes there or waits for a sub-machine that ends there. */
  lemma AskedStep(d: MachineDefinition, s: Session, a: string, b: string)
    requires s.status == Running && s.currentState == a && TrailingRun(s.steps, a) == 0 && a != b
    requires FreeMove(d, a, b)
    ensures var next := Apply(d, MoveResolver, s, Ask(b));
      && TrailingRun(next.steps, b) == 0
      && if Direct(d.states[a], b)
         then next.currentState == b && next.status == LandingStatus(d, b)
         else && next.currentState == a && next.status.AwaitingInvoke?
              && (next.status.invoke.onComplete == b || next.status.invoke.onFail == Some(b))
  {
    MoveAnswer(d, a, b, s.context);
    var event := MoveEvent(b);
    assert event[0] != "FAIL"[0];
    var record := StepRecord(s.stepCount + 1, a, [], Some(event), "");
    RecordedElsewhere(s.steps, record, b);
    assert !IterationsExhausted(d, s);
    assert ReplyNext(d, MoveResolver, s, "", Action(Some(event), None, [])).0.steps == s.steps + [record];
  }

  /** Every move without approval is taken by a session. */
  lemma MoveIsTaken(d: MachineDefinition, ops: seq<Op>, a: string, b: string) returns (before: seq<Op>, op: Op)
    requires StandsIn(d, ops, a) && FreeMove(d, a, b) && a != b
    ensures MovesWith(d, before, op, a, b)
  {
    var s := Run(d, MoveResolver, ops);
    AskedStep(d, s, a, b);
    before, op := ops, Ask(b);
    if !Direct(d.states[a], b) {
      QuietRunMore(d, MoveResolver, ops, Ask(b));
      before := ops + [Ask(b)];
      op := if Run(d, MoveResolver, before).status.invoke.onComplete == b then CompleteInvokeOp(None) else FailInvokeOp("");
    }
  }

  /** Whatever moves reach, a session reaches. */
  lemma {:induction false} PathIsWalked(d: MachineDefinition, p: seq<string>) returns (ops: seq<Op>)
    requires Quiet(d, p) && FreePath(d, p)
    ensures StandsIn(d, ops, p[|p| - 1])
  {
    if |p| == 1 {
      ops := [];
    } else {
      var n := |p| - 1;
      var front := p[..n];
      assert FreeMove(d, p[n - 1], p[n]);
      assert forall k :: 0 <= k < n ==> front[k] == p[k];
      FrontOfPath(d, p);
      ops := PathIsWalked(d, front);
      if p[n] != p[n - 1] {
        var before, op := MoveIsTaken(d, ops, p[n - 1], p[n]);
        QuietRunMore(d, MoveResolver, before, op);
        ops := before + [op];
      }
    }
  }

  lemma FrontOfPath(d: MachineDefinition, p: seq<string>)
    requires FreePath(d, p) && |p| > 0
    ensures FreePath(d, p[..|p| - 1])
  {
    var front := p[..|p| - 1];
    forall k | 0 <= k < |front| - 1 ensures FreeMove(d, front[k], front[k + 1]) {
      assert front[k] == p[k] && front[k + 1] == p[k + 1];
    }
  }

  // ----- What sessions can do -----

  /** After a quiet run that ends in a reading state, `op` takes a live session to external tools
      without approval. */
  ghost predicate Slips(d: MachineDefinition, resolve: Resolver, ops: seq<Op>, op: Op) {
    && Resolves(d, resolve) && QuietRun(d, resolve, ops) && !op.ApproveOp?
    && Privilege(d.states[Run(d, resolve, ops).currentState]) <= 1
    && var next := Apply(d, resolve, Run(d, resolve, ops), op);
       External(d, next.currentState) && !next.status.Failed?
  }

  lemma StartIsReached(d: MachineDefinition)
    requires QuietState(d, d.initial)
    ensures QuietlyReached(d, d.initial)
  {
    var p := [d.initial];
    assert Quiet(d, p) && FreePath(d, p) && p[|p| - 1] == d.initial;
  }

  lemma {:induction false} QuietRunIsReached(d: MachineDefinition, resolve: Resolver, ops: seq<Op>)
    requires Resolves(d, resolve) && QuietRun(d, resolve, ops)
    ensures QuietlyReached(d, Run(d, resolve, ops).currentState)
  {
    if ops == [] {
      StartIsReached(d);
    } else {
      var before, op := ops[..|ops| - 1], ops[|ops| - 1];
      assert ops == before + [op];
      QuietRunIsReached(d, resolve, before);
      LastMoveReaches(d, resolve, before, op);
    }
  }

  lemma LastMoveReaches(d: MachineDefinition, resolve: Resolver, ops: seq<Op>, op: Op)
    requires Resolves(d, resolve) && QuietlyReached(d, Run(d, resolve, ops).currentState) && !op.ApproveOp?
    requires var next := Run(d, resolve, ops + [op]); QuietState(d, next.currentState) && !next.status.Failed?
    ensures QuietlyReached(d, Run(d, resolve, ops + [op]).currentState)
  {
    var a, b := Run(d, resolve, ops).currentState, Run(d, resolve, ops + [op]).currentState;
    LiveMovesAreFree(d, resolve, ops, op);
    if a != b {
      ReachedMore(d, a, b);
    }
  }

  lemma ReachedMore(d: MachineDefinition, a: string, b: string)
    requires QuietlyReached(d, a) && FreeMove(d, a, b) && QuietState(d, b)
    ensures QuietlyReached(d, b)
  {
    var p :| Quiet(d, p) && FreePath(d, p) && p[|p| - 1] == a;
    ExtendFreePath(d, p, b);
    QuietMore(d, p, b);
    assert (p + [b])[|p|] == b;
  }

  lemma QuietMore(d: MachineDefinition, p: seq<string>, b: string)
    requires Quiet(d, p) && QuietState(d, b)
    ensures Quiet(d, p + [b])
  {
  }

  lemma SlippingSession(d: MachineDefinition, a: string) returns (ops: seq<Op>, op: Op)
    requires QuietlyReached(d, a) && SlipsThrough(d, a)
    ensures Slips(d, MoveResolver, ops, op)
  {
    var p :| Quiet(d, p) && FreePath(d, p) && p[|p| - 1] == a;
    var b :| UncheckedMove(d, a, b) && External(d, b);
    UncheckedIsFree(d, a, b);
    MoveResolverResolves(d);
    ops := PathIsWalked(d, p);
    ops, op := MoveIsTaken(d, ops, a, b);
  }

  lemma SlippingState(d: MachineDefinition, resolve: Resolver, ops: seq<Op>, op: Op)
    requires NoEscalation(d) && Slips(d, resolve, ops, op)
    ensures var a := Run(d, resolve, ops).currentState; QuietlyReached(d, a) && SlipsThrough(d, a)
  {
    var a := Run(d, resolve, ops).currentState;
    assert (ops + [op])[..|ops|] == ops;
    var b := Run(d, resolve, ops + [op]).currentState;
    QuietRunIsReached(d, resolve, ops);
    LiveMovesAreFree(d, resolve, ops, op);
    EscalationIsUnchecked(d, a, b);
  }

  ghost predicate SomeSessionSlips(d: MachineDefinition) {
    exists resolve: Resolver, ops, op :: Slips(d, resolve, ops, op)
  }

  ghost predicate SomeStateSlips(d: MachineDefinition) {
    exists a :: QuietlyReached(d, a) && SlipsThrough(d, a)
  }

  /** In an accepted moderate or dangerous machine, some session of some resolver slips from
      reading to external tools without approval exactly if a quietly reached state slips through
      the check. */
  lemma SessionSlipsExactlyWhen(d: MachineDefinition, structural: seq<string>)
    requires Accepted(d, structural) && IsDangerous(d)
    ensures SomeSessionSlips(d) <==> SomeStateSlips(d)
  {
    if SomeSessionSlips(d) {
      SessionNeedsState(d);
    }
    if SomeStateSlips(d) {
      StateGivesSession(d);
    }
  }

  lemma SessionNeedsState(d: MachineDefinition)
    requires NoEscalation(d) && SomeSessionSlips(d)
    ensures SomeStateSlips(d)
  {
    var resolve: Resolver, ops, op :| Slips(d, resolve, ops, op);
    SlippingState(d, resolve, ops, op);
  }

  lemma StateGivesSession(d: MachineDefinition)
    requires SomeStateSlips(d)
    ensures SomeSessionSlips(d)
  {
    var a :| QuietlyReached(d, a) && SlipsThrough(d, a);
    var ops, op := SlippingSession(d, a);
    OneSessionSlips(d, MoveResolver, ops, op);
  }

  lemma OneSessionSlips(d: MachineDefinition, resolve: Resolver, ops: seq<Op>, op: Op)
    requires Slips(d, resolve, ops, op)
    ensures SomeSessionSlips(d)
  {
  }

  // ----- A session of the leaky machine -----

  function LeakyResolver(state: string, event: string, context: Value, d: MachineDefinition)
    : Result<TransitionResult, TransitionError>
  {
    if d == LeakyMachine() && state == "read" && event == "NEXT" then Success(TransitionResult("ship", context, false, None, None))
    else Failure(NoMatchingTransition)
  }

  const NEXT := StepOp(Reply("", Action(Some("NEXT"), None, [])))

  /** One step takes it from reading to `deploy`, and it goes on running there. */
  lemma LeakySessionSlips()
    ensures Resolves(LeakyMachine(), LeakyResolver)
    ensures var s := Run(LeakyMachine(), LeakyResolver, [NEXT]);
      s.status == Running && s.currentState == "ship" && External(LeakyMachine(), s.currentState)
  {
    var d := LeakyMachine();
    var t := d.states["read"].on[1];
    assert t in d.states["read"].on && t.1.AllTargets()[1] == "ship";
    forall a, event, context | LeakyResolver(a, event, context, d).Success?
      ensures ResolvedIn(d, a, LeakyResolver(a, event, context, d).value)
    {
      assert Follows(t.1, LeakyResolver(a, event, context, d).value);
    }
    LeakyPrivileges();
    assert [NEXT][..0] == [];
    assert Run(d, LeakyResolver, []) == InitialSession(d);
  }
}
