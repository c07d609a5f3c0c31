/** Options and results, standing for the source's `Option` and `Result`. */
module Wrappers {
  datatype Option<+T> = None | Some(value: T)

  datatype Result<+T, +E> = Success(value: T) | Failure(error: E)
}

/** Facts about sequences that several proofs need. */
module Sequences {
  lemma Regroup<T>(a: seq<T>, b: seq<T>, c: seq<T>)
    ensures a + (b + c) == (a + b) + c
  {
  }
}

/** Arithmetic of the source: saturating 32-bit counters, minima and flags as numbers. */
module Arithmetic {
  const U32_MAX: nat := 0xFFFF_FFFF

  function SaturatingInc(n: nat): nat {
    if n < U32_MAX then n + 1 else U32_MAX
  }

  function SaturatingSub(a: nat, b: nat): nat {
    if a < b then 0 else a - b
  }

  function Min(a: int, b: int): int {
    if a < b then a else b
  }

  function Flag(b: bool): nat {
    if b then 1 else 0
  }
}

/** A decoded JSON document. */
module Json {
  datatype Value =
    | Null
    | Bool(b: bool)
    | Number(n: int)
    | Str(s: string)
    | Array(items: seq<Value>)
    | Object(fields: map<string, Value>)
}

/** Workflow definitions: states, their transitions and their limits. */
module Machine {
  import opened Wrappers
  import opened Json

  datatype StateType = Final | Parallel

  datatype DangerLevel = Safe | Moderate | Dangerous

  datatype TransitionDef =
    | Simple(to: string)
    | Full(fullTarget: string, approval: Option<bool>)
    | Guarded(branches: seq<string>)
    | Fork(joined: string)
    | Invoke(machine: string, onComplete: string, onFail: Option<string>)
  {
    /** The target that reachability and validation follow: the first guarded branch, the
        `on_complete` of a fork, the completion state of an invocation. */
    function Target(): string {
      match this
      case Simple(to) => to
      case Full(to, _) => to
      case Guarded(branches) => if branches == [] then "" else branches[0]
      case Fork(joined) => joined
      case Invoke(_, onComplete, _) => onComplete
    }

    /** Every state that the transition can lead to. */
    function AllTargets(): (targets: seq<string>)
      ensures targets != [] ==> targets[0] == Target()
      ensures targets == [] ==> Guarded?
    {
      match this
      case Guarded(branches) => branches
      case Invoke(_, onComplete, Some(onFail)) => [onComplete, onFail]
      case _ => [Target()]
    }

    predicate RequiresApproval() {
      Full? && approval == Some(true)
    }
  }

  /** `on` lists the transitions in event order; an event that names none of them leads to
      `safeNext`, if there is one. */
  datatype StateDef = StateDef(
    on: seq<(string, TransitionDef)>,
    stateType: Option<StateType>,
    allowedTools: Option<seq<string>>,
    maxIterations: Option<nat>,
    safeNext: Option<string>)

  datatype MachineDefinition = MachineDefinition(
    id: string,
    initial: string,
    context: Value,
    states: map<string, StateDef>,
    danger: Option<DangerLevel>)

  predicate IsFinal(definition: MachineDefinition, state: string) {
    state in definition.states && definition.states[state].stateType == Some(Final)
  }
}
