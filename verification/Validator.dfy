/** Safety checks on generated workflow definitions. */
module Validator {
  import opened Wrappers
  import opened Machine

  // ----- Reachability -----

  /** `b` is the target of a transition of `a`. */
  ghost predicate Edge(d: MachineDefinition, a: string, b: string) {
    a in d.states && exists t :: t in d.states[a].on && t.1.Target() == b
  }

  ghost predicate Path(d: MachineDefinition, p: seq<string>) {
    forall k :: 0 <= k < |p| - 1 ==> Edge(d, p[k], p[k + 1])
  }

  /** A path with at least one transition leads from `from` to `to`. */
  ghost predicate Reachable(d: MachineDefinition, from: string, to: string) {
    exists p :: |p| >= 2 && p[0] == from && p[|p| - 1] == to && Path(d, p)
  }

  lemma ReachableStep(d: MachineDefinition, from: string, mid: string, to: string)
    requires from == mid || Reachable(d, from, mid)
    requires Edge(d, mid, to)
    ensures Reachable(d, from, to)
  {
    if from == mid && !Reachable(d, from, mid) {
      assert Path(d, [mid, to]);
    } else {
      var p :| |p| >= 2 && p[0] == from && p[|p| - 1] == mid && Path(d, p);
      var q := p + [to];
      assert Path(d, q);
    }
  }

  /** Every transition out of `c` stays in `c` and avoids `to`. */
  ghost predicate ClosedAvoiding(d: MachineDefinition, c: set<string>, to: string) {
    forall a, b :: a in c && Edge(d, a, b) ==> b in c && b != to
  }

  lemma {:induction false} NoPathOut(d: MachineDefinition, c: set<string>, to: string, p: seq<string>)
    requires ClosedAvoiding(d, c, to) && |p| >= 2 && p[0] in c && Path(d, p)
    ensures p[|p| - 1] != to
  {
    assert Edge(d, p[0], p[1]);
    if |p| > 2 {
      assert p[1..][0] == p[1];
      NoPathOut(d, c, to, p[1..]);
    }
  }

  /** Everything that breadth-first search can ever see. */
  function Universe(d: MachineDefinition, from: string): set<string> {
    {from} + set s, t | s in d.states && t in d.states[s].on :: t.1.Target()
  }

  /** What the search knows: visited states are processed or queued, all of them can be reached,
      and processed ones lead only to visited states, never to the target. */
  ghost predicate Searching(d: MachineDefinition, from: string, to: string,
                            visited: set<string>, queue: seq<string>, processed: set<string>)
  {
    && from in visited && visited <= Universe(d, from)
    && (forall v :: v in visited <==> v in processed || v in queue)
    && (forall v :: v in visited ==> v == from || Reachable(d, from, v))
    && (forall a, b :: a in processed && Edge(d, a, b) ==> b in visited && b != to)
  }

  /** Breadth-first search decides reachability by a non-empty path. */
  method CanReach(from: string, to: string, d: MachineDefinition) returns (found: bool)
    ensures found <==> Reachable(d, from, to)
  {
    var visited: set<string>, queue: seq<string> := {from}, [from];
    ghost var processed: set<string> := {};
    while queue != []
      invariant Searching(d, from, to, visited, queue, processed)
      decreases Universe(d, from) - visited, |queue|
    {
      var state := queue[0];
      assert queue == [state] + queue[1..];
      found, visited, queue := Expand(from, to, d, state, visited, queue[1..], processed);
      if found {
        return;
      }
      processed := processed + {state};
    }
    forall p | |p| >= 2 && p[0] == from && Path(d, p) ensures p[|p| - 1] != to {
      NoPathOut(d, visited, to, p);
    }
    return false;
  }

  /** Expanding `state`: its first `i` transitions lead to visited states, not to the target. */
  ghost predicate Expanding(d: MachineDefinition, from: string, to: string, state: string, i: nat,
                            visited: set<string>, queue: seq<string>, processed: set<string>)
    requires state in d.states && i <= |d.states[state].on|
  {
    && visited <= Universe(d, from)
    && (forall v :: v in visited <==> v in processed || v == state || v in queue)
    && (forall v :: v in visited ==> v == from || Reachable(d, from, v))
    && (forall j :: 0 <= j < i ==> d.states[state].on[j].1.Target() in visited && d.states[state].on[j].1.Target() != to)
  }

  lemma ExpandOne(d: MachineDefinition, from: string, to: string, state: string, i: nat,
                  visited: set<string>, queue: seq<string>, processed: set<string>)
    requires state in d.states && i < |d.states[state].on|
    requires Expanding(d, from, to, state, i, visited, queue, processed) && state in visited
    ensures var next := d.states[state].on[i].1.Target();
      && Reachable(d, from, next)
      && (next != to ==>
            if next in visited then Expanding(d, from, to, state, i + 1, visited, queue, processed)
            else Expanding(d, from, to, state, i + 1, visited + {next}, queue + [next], processed))
  {
    var next := d.states[state].on[i].1.Target();
    assert d.states[state].on[i] in d.states[state].on;
    assert Edge(d, state, next);
    ReachableStep(d, from, state, next);
    assert next in Universe(d, from);
  }

  /** The transitions of one state, in order. */
  method Expand(from: string, to: string, d: MachineDefinition, state: string,
                visited: set<string>, queue: seq<string>, ghost processed: set<string>)
      returns (found: bool, visited': set<string>, queue': seq<string>)
    requires Searching(d, from, to, visited, [state] + queue, processed)
    ensures found ==> Reachable(d, from, to)
    ensures !found ==> Searching(d, from, to, visited', queue', processed + {state})
    ensures !found ==> visited <= visited' && (visited' == visited ==> queue' == queue)
  {
    visited', queue' := visited, queue;
    assert ([state] + queue)[0] == state;
    assert forall v :: v in [state] + queue <==> v == state || v in queue;
    if state in d.states {
      var on := d.states[state].on;
      for i := 0 to |on|
        invariant visited <= visited' && (visited' == visited ==> queue' == queue)
        invariant Expanding(d, from, to, state, i, visited', queue', processed)
      {
        var next := on[i].1.Target();
        ExpandOne(d, from, to, state, i, visited', queue', processed);
        if next == to {
          return true, visited', queue';
        }
        if next !in visited' {
          visited' := visited' + {next};
          queue' := queue' + [next];
        }
      }
    }
    return false, visited', queue';
  }

  // ----- Tool privileges -----

  const READ_ONLY_TOOLS := ["read_file", "search_files", "list_directory", "grep", "git_status", "git_log", "git_diff"]
  const WRITE_TOOLS := ["write_file", "edit_file", "create_file", "delete_file"]
  const EXECUTE_TOOLS := ["run_command", "run_test", "run_build"]
  const GIT_MUTATE_TOOLS := ["git_add", "git_commit", "git_push", "git_checkout", "git_branch"]
  const EXTERNAL_TOOLS := ["http_request", "deploy", "database_query", "database_mutate"]

  function ToolPrivilege(tool: string): (level: nat)
    ensures level <= 4
  {
    if tool in READ_ONLY_TOOLS then 1
    else if tool in WRITE_TOOLS then 2
    else if tool in EXECUTE_TOOLS then 3
    else if tool in GIT_MUTATE_TOOLS then 3
    else if tool in EXTERNAL_TOOLS then 4
    else 0
  }

  /** Reading is 1, writing 2, executing and changing the repository 3, reaching outside 4, and an
      unknown tool has no privilege. */
  lemma PrivilegesOfTools(tool: string)
    ensures ToolPrivilege(tool) == 1 <==>
            tool in {"read_file", "search_files", "list_directory", "grep", "git_status", "git_log", "git_diff"}
    ensures ToolPrivilege(tool) == 2 <==> tool in {"write_file", "edit_file", "create_file", "delete_file"}
    ensures ToolPrivilege(tool) == 3 <==>
            tool in {"run_command", "run_test", "run_build", "git_add", "git_commit", "git_push", "git_checkout", "git_branch"}
    ensures ToolPrivilege(tool) == 4 <==> tool in {"http_request", "deploy", "database_query", "database_mutate"}
  {
    assert tool in READ_ONLY_TOOLS <==>
      tool in {"read_file", "search_files", "list_directory", "grep", "git_status", "git_log", "git_diff"};
    assert tool in WRITE_TOOLS <==> tool in {"write_file", "edit_file", "create_file", "delete_file"};
    assert tool in EXECUTE_TOOLS <==> tool in {"run_command", "run_test", "run_build"};
    assert tool in GIT_MUTATE_TOOLS <==> tool in {"git_add", "git_commit", "git_push", "git_checkout", "git_branch"};
    assert tool in EXTERNAL_TOOLS <==> tool in {"http_request", "deploy", "database_query", "database_mutate"};
  }

  /** The highest privilege of a list of tools. */
  function MaxOf(tools: seq<string>): (level: nat)
    ensures level <= 4
    ensures forall t :: t in tools ==> ToolPrivilege(t) <= level
    ensures level > 0 ==> exists t :: t in tools && ToolPrivilege(t) == level
  {
    if tools == [] then 0
    else
      var rest := MaxOf(tools[1..]);
      if ToolPrivilege(tools[0]) >= rest then ToolPrivilege(tools[0]) else rest
  }

  function Privilege(s: StateDef): (level: nat)
    ensures level <= 4
  {
    match s.allowedTools case Some(tools) => MaxOf(tools) case None => 0
  }

  // ----- Acceptance -----

  predicate IsDangerous(d: MachineDefinition) {
    d.danger == Some(Dangerous) || d.danger == Some(Moderate)
  }

  /** Every non-final state can fail. */
  ghost predicate EveryStateCanFail(d: MachineDefinition) {
    forall s :: s in d.states && !IsFinal(d, s) ==> Reachable(d, s, "failed")
  }

  predicate QuietInitial(d: MachineDefinition) {
    d.initial in d.states ==> Privilege(d.states[d.initial]) < 2
  }

  ghost predicate HasApproval(d: MachineDefinition) {
    exists s, t :: s in d.states && t in d.states[s].on && t.1.RequiresApproval()
  }

  /** A transition that jumps from privilege 0 or 1 to 4 without approval. */
  predicate Escalates(d: MachineDefinition, s: string, t: TransitionDef)
    requires s in d.states
  {
    && t.Target() in d.states && Privilege(d.states[t.Target()]) >= 4
    && Privilege(d.states[s]) <= 1 && !t.RequiresApproval()
  }

  ghost predicate NoEscalation(d: MachineDefinition) {
    forall s, t :: s in d.states && !IsFinal(d, s) && t in d.states[s].on ==> !Escalates(d, s, t.1)
  }

  /** The definition passes: `structural` are the findings of the engine's own validation. */
  ghost predicate Accepted(d: MachineDefinition, structural: seq<string>) {
    && structural == [] && IsFinal(d, "failed") && EveryStateCanFail(d)
    && (IsDangerous(d) ==> QuietInitial(d) && HasApproval(d) && NoEscalation(d))
  }

  /** From a non-final state without any tools beyond reading to one that reaches outside. */
  predicate JumpsOutside(d: MachineDefinition, s: string, t: TransitionDef)
    requires s in d.states
  {
    && d.states[s].stateType != Some(Final) && Privilege(d.states[s]) <= 1
    && t.Target() in d.states && Privilege(d.states[t.Target()]) == 4
  }

  predicate Gated(t: TransitionDef) {
    t.Full? && t.approval == Some(true)
  }

  ghost predicate HasGate(d: MachineDefinition) {
    exists s, t :: s in d.states && t in d.states[s].on && Gated(t.1)
  }

  ghost predicate JumpsAreGated(d: MachineDefinition) {
    forall s, t :: s in d.states && t in d.states[s].on && JumpsOutside(d, s, t.1) ==> Gated(t.1)
  }

  lemma GatesMean(d: MachineDefinition)
    ensures HasApproval(d) <==> HasGate(d)
  {
    if HasApproval(d) {
      var s, t :| s in d.states && t in d.states[s].on && t.1.RequiresApproval();
      assert Gated(t.1);
    }
    if HasGate(d) {
      var s, t :| s in d.states && t in d.states[s].on && Gated(t.1);
      assert t.1.RequiresApproval();
    }
  }

  lemma JumpsMean(d: MachineDefinition)
    ensures NoEscalation(d) <==> JumpsAreGated(d)
  {
    assert forall s, t :: s in d.states && !IsFinal(d, s) && t in d.states[s].on ==>
      (Escalates(d, s, t.1) <==> JumpsOutside(d, s, t.1) && !Gated(t.1));
  }

  /** What an accepted machine is, written out. */
  lemma AcceptedMeans(d: MachineDefinition, structural: seq<string>)
    ensures Accepted(d, structural) <==>
            && structural == []
            && "failed" in d.states && d.states["failed"].stateType == Some(Final)
            && (forall s :: s in d.states && d.states[s].stateType != Some(Final) ==> Reachable(d, s, "failed"))
            && (d.danger == Some(Moderate) || d.danger == Some(Dangerous) ==>
                  && (d.initial in d.states ==> Privilege(d.states[d.initial]) <= 1)
                  && HasGate(d) && JumpsAreGated(d))
  {
    GatesMean(d);
    JumpsMean(d);
    assert EveryStateCanFail(d) <==>
      forall s :: s in d.states && d.states[s].stateType != Some(Final) ==> Reachable(d, s, "failed");
  }

  datatype Finding =
    | Structural(text: string)
    | NoFailedState
    | CannotFail(state: string)
    | UnsafeInitial(tools: seq<string>)
    | NoApprovalGate
    | Escalation(from: string, to: string)

  method ValidateAgentMachine(d: MachineDefinition, structural: seq<string>) returns (errors: seq<Finding>)
    ensures errors == [] <==> Accepted(d, structural)
  {
    errors := seq(|structural|, i requires 0 <= i < |structural| => Structural(structural[i]));
    if !IsFinal(d, "failed") {
      errors := errors + [NoFailedState];
    } else {
      var stuck := StatesThatCannotFail(d);
      errors := errors + stuck;
    }
    if IsDangerous(d) {
      if d.initial in d.states && d.states[d.initial].allowedTools.Some? {
        var tools := d.states[d.initial].allowedTools.value;
        var dangerous := DangerousTools(tools);
        if dangerous != [] {
          errors := errors + [UnsafeInitial(dangerous)];
        }
      }
      var gated := FindApproval(d);
      if !gated {
        errors := errors + [NoApprovalGate];
      }
      var escalations := Escalations(d);
      errors := errors + escalations;
    }
  }

  method StatesThatCannotFail(d: MachineDefinition) returns (errors: seq<Finding>)
    ensures errors == [] <==> EveryStateCanFail(d)
  {
    errors := [];
    var pending := d.states.Keys;
    while pending != {}
      invariant pending <= d.states.Keys
      invariant errors == [] <==>
        forall s :: s in d.states && s !in pending && !IsFinal(d, s) ==> Reachable(d, s, "failed")
    {
      var s :| s in pending;
      if !IsFinal(d, s) {
        var ok := CanReach(s, "failed", d);
        if !ok {
          errors := errors + [CannotFail(s)];
        }
      }
      pending := pending - {s};
    }
  }

  method DangerousTools(tools: seq<string>) returns (found: seq<string>)
    ensures found == [] <==> MaxOf(tools) < 2
  {
    found := [];
    for i := 0 to |tools|
      invariant found == [] <==> forall j :: 0 <= j < i ==> ToolPrivilege(tools[j]) < 2
    {
      if ToolPrivilege(tools[i]) >= 2 {
        found := found + [tools[i]];
      }
    }
  }

  method FindApproval(d: MachineDefinition) returns (found: bool)
    ensures found <==> HasApproval(d)
  {
    var pending := d.states.Keys;
    while pending != {}
      invariant pending <= d.states.Keys
      invariant forall s, t :: s in d.states && s !in pending && t in d.states[s].on ==> !t.1.RequiresApproval()
    {
      var s :| s in pending;
      var on := d.states[s].on;
      for i := 0 to |on|
        invariant forall j :: 0 <= j < i ==> !on[j].1.RequiresApproval()
      {
        if on[i].1.RequiresApproval() {
          assert on[i] in on;
          return true;
        }
      }
      pending := pending - {s};
    }
    return false;
  }

  method Escalations(d: MachineDefinition) returns (errors: seq<Finding>)
    ensures errors == [] <==> NoEscalation(d)
  {
    errors := [];
    var pending := d.states.Keys;
    while pending != {}
      invariant pending <= d.states.Keys
      invariant errors == [] <==>
        forall s, t :: s in d.states && s !in pending && !IsFinal(d, s) && t in d.states[s].on ==> !Escalates(d, s, t.1)
    {
      var s :| s in pending;
      if !IsFinal(d, s) {
        var found := EscalationsFrom(d, s);
        errors := errors + found;
      }
      pending := pending - {s};
    }
  }

  method EscalationsFrom(d: MachineDefinition, s: string) returns (errors: seq<Finding>)
    requires s in d.states
    ensures errors == [] <==> forall t :: t in d.states[s].on ==> !Escalates(d, s, t.1)
  {
    errors := [];
    var on := d.states[s].on;
    for i := 0 to |on|
      invariant errors == [] <==> forall j :: 0 <= j < i ==> !Escalates(d, s, on[j].1)
    {
      if Escalates(d, s, on[i].1) {
        errors := errors + [Escalation(s, on[i].1.Target())];
      }
    }
  }
}
