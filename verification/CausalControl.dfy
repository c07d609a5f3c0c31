/** The deterministic routing policy of serial repair, and what holds over whole runs of it. */
module CausalControl {
  import opened Wrappers
  import opened Arithmetic
  import opened Signals

  const RESET_THRESHOLD: nat := 2

  datatype EvidenceTier = NoEvidence | Safety | Efficacy

  datatype Route =
    | AcceptFirstClean
    | AuditChangedFailure
    | AcquireTaskEvidence
    | AuditRegressionCandidate
    | AuditBoundedSafety
    | RefineSafety
    | Repair
    | Reset

  /** What one decision is based on. */
  datatype Situation = Situation(
    hasReproducer: bool,
    delta: Option<TestDelta>,
    scope: ScopeSignal,
    blocking: bool,
    signature: string,
    hasCheckpoint: bool)

  datatype Policy = Policy(
    budget: nat,
    validEdits: nat,
    lastSignature: Option<string>,
    repeatedFailures: nat,
    acquisitionUsed: bool)

  function Tier(x: Situation): EvidenceTier {
    if x.hasReproducer then (if x.delta == Some(Fixed) && x.scope.IsPassLike() then Efficacy else NoEvidence)
    else if x.scope == TaskScopeImproved then Efficacy
    else if x.scope == RegressionPass || x.scope == StructuralPass then Safety
    else NoEvidence
  }

  predicate FirstCleanGate(x: Situation) {
    !x.blocking && Tier(x) == Efficacy
  }

  function Cleared(p: Policy): Policy {
    p.(lastSignature := None, repeatedFailures := 0)
  }

  function AfterFailure(p: Policy, signature: string): Policy {
    if p.lastSignature == Some(signature) then p.(repeatedFailures := SaturatingInc(p.repeatedFailures))
    else p.(lastSignature := Some(signature), repeatedFailures := 1)
  }

  /** One decision: the route and the policy after it. */
  function Decide(p: Policy, x: Situation): (Route, Policy) {
    if FirstCleanGate(x) then (AcceptFirstClean, Cleared(p))
    else if x.delta == Some(ChangedFail) && x.scope.IsPassLike() && !x.blocking then (AuditChangedFailure, Cleared(p))
    else if !x.hasReproducer && x.delta == None && x.scope == RegressionPass && !x.blocking && x.hasCheckpoint then
      if !p.acquisitionUsed then (AcquireTaskEvidence, Cleared(p).(acquisitionUsed := true))
      else (AuditRegressionCandidate, Cleared(p))
    else if p.validEdits >= p.budget && x.hasCheckpoint then (AuditBoundedSafety, Cleared(p))
    else if x.blocking || Tier(x) == NoEvidence then
      var failed := AfterFailure(p, x.signature);
      if failed.repeatedFailures >= RESET_THRESHOLD && x.hasCheckpoint then (Reset, Cleared(p)) else (Repair, failed)
    else (RefineSafety, Cleared(p))
  }

  function NewPolicy(budget: nat): Policy {
    Policy(if budget < 2 then 2 else budget, 0, None, 0, false)
  }

  class SerialRepairPolicy {
    const budget: nat
    var validEdits: nat
    var lastSignature: Option<string>
    var repeatedFailures: nat
    var acquisitionUsed: bool

    ghost function View(): Policy
      reads this
    {
      Policy(budget, validEdits, lastSignature, repeatedFailures, acquisitionUsed)
    }

    constructor (safetyEditBudget: nat)
      ensures View() == NewPolicy(safetyEditBudget)
    {
      budget := if safetyEditBudget < 2 then 2 else safetyEditBudget;
      validEdits, lastSignature, repeatedFailures, acquisitionUsed := 0, None, 0, false;
    }

    method RecordValidEdit()
      modifies this
      ensures View() == old(View()).(validEdits := SaturatingInc(old(validEdits)))
    {
      validEdits := SaturatingInc(validEdits);
    }

    method ClearFailure()
      modifies this
      ensures View() == Cleared(old(View()))
    {
      lastSignature := None;
      repeatedFailures := 0;
    }

    method DecideRoute(x: Situation) returns (route: Route)
      modifies this
      ensures (route, View()) == Decide(old(View()), x)
    {
      var tier := Tier(x);
      if FirstCleanGate(x) {
        ClearFailure();
        return AcceptFirstClean;
      }
      if x.delta == Some(ChangedFail) && x.scope.IsPassLike() && !x.blocking {
        ClearFailure();
        return AuditChangedFailure;
      }
      if !x.hasReproducer && x.delta == None && x.scope == RegressionPass && !x.blocking && x.hasCheckpoint {
        ClearFailure();
        if !acquisitionUsed {
          acquisitionUsed := true;
          return AcquireTaskEvidence;
        }
        return AuditRegressionCandidate;
      }
      if validEdits >= budget && x.hasCheckpoint {
        ClearFailure();
        return AuditBoundedSafety;
      }
      if x.blocking || tier == NoEvidence {
        if lastSignature == Some(x.signature) {
          repeatedFailures := SaturatingInc(repeatedFailures);
        } else {
          lastSignature := Some(x.signature);
          repeatedFailures := 1;
        }
        if repeatedFailures >= RESET_THRESHOLD && x.hasCheckpoint {
          ClearFailure();
          return Reset;
        }
        return Repair;
      }
      ClearFailure();
      return RefineSafety;
    }
  }

  // ----- Runs of edits and decisions -----

  datatype Event = Edit | Decision(situation: Situation)

  function Step(p: Policy, e: Event): Policy {
    match e
    case Edit => p.(validEdits := SaturatingInc(p.validEdits))
    case Decision(x) => Decide(p, x).1
  }

  function Run(budget: nat, events: seq<Event>): Policy {
    if events == [] then NewPolicy(budget)
    else Step(Run(budget, events[..|events| - 1]), events[|events| - 1])
  }

  /** One decision of a run with the route it took. */
  datatype Taken = Taken(situation: Situation, route: Route)

  /** The decisions of a run, in order. */
  function Decisions(budget: nat, events: seq<Event>): seq<Taken> {
    if events == [] then []
    else
      var before, e := events[..|events| - 1], events[|events| - 1];
      match e
      case Edit => Decisions(budget, before)
      case Decision(x) => Decisions(budget, before) + [Taken(x, Decide(Run(budget, before), x).0)]
  }

  function Count(ds: seq<Taken>, p: Taken -> bool): nat {
    if ds == [] then 0 else Count(ds[..|ds| - 1], p) + if p(ds[|ds| - 1]) then 1 else 0
  }

  /** How many of the last decisions are repairs with this signature. */
  function TrailingRepairs(ds: seq<Taken>, signature: string): nat {
    if ds == [] || ds[|ds| - 1].route != Repair || ds[|ds| - 1].situation.signature != signature then 0
    else 1 + TrailingRepairs(ds[..|ds| - 1], signature)
  }

  predicate Acquires(d: Taken) {
    d.route == AcquireTaskEvidence
  }

  /** Task evidence is acquired at most once, and the flag says whether it was. */
  lemma {:induction false} AcquiredAtMostOnce(budget: nat, events: seq<Event>)
    ensures Count(Decisions(budget, events), Acquires) ==
            if Run(budget, events).acquisitionUsed then 1 else 0
  {
    if events != [] {
      var before, e := events[..|events| - 1], events[|events| - 1];
      AcquiredAtMostOnce(budget, before);
      PushedDecision(budget, events);
      if e.Decision? {
        DecisionKeeps(Run(budget, before), e.situation);
      }
    }
  }

  /** A decision counts no edits, and uses the acquisition up exactly when it chooses it. */
  lemma DecisionKeeps(p: Policy, x: Situation)
    ensures var (route, after) := Decide(p, x);
      && after.budget == p.budget && after.validEdits == p.validEdits
      && (route == AcquireTaskEvidence <==> !p.acquisitionUsed && after.acquisitionUsed)
      && (p.acquisitionUsed ==> after.acquisitionUsed)
  {
  }

  /** The decisions before the last event are the front of the decisions. */
  lemma PushedDecision(budget: nat, events: seq<Event>)
    requires events != []
    ensures var before, ds := Decisions(budget, events[..|events| - 1]), Decisions(budget, events);
      if events[|events| - 1].Edit? then ds == before
      else |ds| == |before| + 1 && ds[..|ds| - 1] == before
  {
  }

  /** The failure counter is the length of the trailing run of repairs with the remembered
      signature (as far as 32 bits count), and no signature means that there is no such run. */
  lemma {:induction false} CounterIsTrailingRun(budget: nat, events: seq<Event>)
    ensures var p, ds := Run(budget, events), Decisions(budget, events);
      match p.lastSignature
      case None => p.repeatedFailures == 0 && (ds != [] ==> ds[|ds| - 1].route != Repair)
      case Some(signature) =>
        && ds != [] && ds[|ds| - 1].route == Repair && ds[|ds| - 1].situation.signature == signature
        && p.repeatedFailures == Min(TrailingRepairs(ds, signature), U32_MAX)
  {
    if events != [] {
      var before, e := events[..|events| - 1], events[|events| - 1];
      CounterIsTrailingRun(budget, before);
      PushedDecision(budget, events);
      if e.Decision? {
        var ds, x := Decisions(budget, before), e.situation;
        if Decide(Run(budget, before), x).0 == Repair {
          assert Run(budget, before).lastSignature != Some(x.signature) ==> TrailingRepairs(ds, x.signature) == 0;
        }
      }
    }
  }

  /** With a checkpoint, a repair is never repeated for the signature it just failed on. */
  lemma NoRepeatedRepairWithCheckpoint(budget: nat, events: seq<Event>, i: nat)
    requires i + 1 < |Decisions(budget, events)|
    ensures var ds := Decisions(budget, events);
      ds[i].route == Repair && ds[i + 1].route == Repair && ds[i].situation.signature == ds[i + 1].situation.signature ==>
        !ds[i + 1].situation.hasCheckpoint
  {
    RoutesFollowHistory(budget, events, i + 1);
  }

  lemma {:induction false} CountIsZero(ds: seq<Taken>, p: Taken -> bool)
    ensures Count(ds, p) == 0 <==> forall j :: 0 <= j < |ds| ==> !p(ds[j])
  {
    if ds != [] {
      CountIsZero(ds[..|ds| - 1], p);
    }
  }

  predicate RepairsSame(a: Taken, b: Taken) {
    a.route == Repair && a.situation.signature == b.situation.signature
  }

  /** What a decision says about the ones before it. */
  ghost predicate FollowsHistory(ds: seq<Taken>, i: nat)
    requires i < |ds|
  {
    && (ds[i].route == Repair || ds[i].route == Reset ==>
          (ds[i].route == Reset <==> ds[i].situation.hasCheckpoint && i > 0 && RepairsSame(ds[i - 1], ds[i])))
    && (ds[i].route == AcquireTaskEvidence ==> forall j :: 0 <= j < i ==> !Acquires(ds[j]))
    && (ds[i].route == AuditRegressionCandidate ==> exists j :: 0 <= j < i && Acquires(ds[j]))
  }

  /** In every run a failing candidate is reset rather than repaired exactly if there is a
      checkpoint to go back to and the decision just before repaired the same failure.  A regression
      candidate is audited only after task evidence was acquired, and that happens once. */
  lemma {:induction false} RoutesFollowHistory(budget: nat, events: seq<Event>, i: nat)
    requires i < |Decisions(budget, events)|
    ensures FollowsHistory(Decisions(budget, events), i)
  {
    var before, ds := events[..|events| - 1], Decisions(budget, events);
    var earlier := Decisions(budget, before);
    PushedDecision(budget, events);
    if i < |earlier| {
      RoutesFollowHistory(budget, before, i);
      assert forall j :: 0 <= j <= i ==> ds[j] == earlier[j];
    } else {
      CounterIsTrailingRun(budget, before);
      AcquiredAtMostOnce(budget, before);
      CountIsZero(earlier, Acquires);
      assert forall j :: 0 <= j < i ==> ds[j] == earlier[j];
    }
  }

  // ----- Every route by what has happened -----

  function EditCount(events: seq<Event>): nat {
    if events == [] then 0 else EditCount(events[..|events| - 1]) + if events[|events| - 1].Edit? then 1 else 0
  }

  lemma {:induction false} EditsAreCounted(budget: nat, events: seq<Event>)
    ensures Run(budget, events).validEdits == Min(EditCount(events), U32_MAX)
    ensures Run(budget, events).budget == if budget < 2 then 2 else budget
  {
    if events != [] {
      var before, e := events[..|events| - 1], events[|events| - 1];
      EditsAreCounted(budget, before);
      if e.Decision? {
        DecisionKeeps(Run(budget, before), e.situation);
      }
    }
  }

  /** The task itself is shown to be solved: by a fixed reproducer in a passing scope, or without a
      reproducer by an improved task scope. */
  predicate TaskEvidence(x: Situation) {
    if x.hasReproducer then x.delta == Some(Fixed) && x.scope in {RegressionPass, TaskScopeImproved, StructuralPass}
    else x.scope == TaskScopeImproved
  }

  predicate ChangedFailure(x: Situation) {
    x.delta == Some(ChangedFail) && x.scope in {RegressionPass, TaskScopeImproved, StructuralPass}
  }

  /** A regression pass without any oracle for the task, with a checkpoint to fall back on. */
  predicate BareRegressionPass(x: Situation) {
    !x.hasReproducer && x.delta == None && x.scope == RegressionPass && x.hasCheckpoint
  }

  /** Nothing speaks for the candidate, or something blocks it. */
  predicate Failing(x: Situation) {
    x.blocking || (x.hasReproducer && !TaskEvidence(x))
    || (!x.hasReproducer && x.scope !in {RegressionPass, TaskScopeImproved, StructuralPass})
  }

  /** The route, by the situation, by whether task evidence was acquired before, by whether the
      edits have used up the budget, and by whether the decision before repaired the same failure. */
  function RouteFor(x: Situation, acquired: bool, usedUp: bool, repeated: bool): Route {
    if !x.blocking && TaskEvidence(x) then AcceptFirstClean
    else if !x.blocking && ChangedFailure(x) then AuditChangedFailure
    else if !x.blocking && BareRegressionPass(x) then (if acquired then AuditRegressionCandidate else AcquireTaskEvidence)
    else if usedUp && x.hasCheckpoint then AuditBoundedSafety
    else if !Failing(x) then RefineSafety
    else if repeated && x.hasCheckpoint then Reset
    else Repair
  }

  /** In every run the next route is determined by what has happened: the edits, the routes taken and
      the failure repaired last. */
  lemma RouteExactly(budget: nat, events: seq<Event>, x: Situation)
    ensures var ds := Decisions(budget, events);
      Decide(Run(budget, events), x).0 ==
      RouteFor(x, exists j :: 0 <= j < |ds| && Acquires(ds[j]),
               Min(EditCount(events), U32_MAX) >= (if budget < 2 then 2 else budget),
               ds != [] && ds[|ds| - 1].route == Repair && ds[|ds| - 1].situation.signature == x.signature)
  {
    CounterIsTrailingRun(budget, events);
    AcquiredAtMostOnce(budget, events);
    CountIsZero(Decisions(budget, events), Acquires);
    EditsAreCounted(budget, events);
  }

  /** Nothing is accepted or audited while something blocks it, and what is accepted solves the task. */
  lemma AcceptedIsClean(budget: nat, events: seq<Event>, x: Situation)
    ensures Decide(Run(budget, events), x).0 == AcceptFirstClean <==> !x.blocking && TaskEvidence(x)
    ensures x.blocking ==> Decide(Run(budget, events), x).0 in {AuditBoundedSafety, Repair, Reset}
  {
    RouteExactly(budget, events, x);
  }

  /** Exploration that spends the safety budget although a checkpoint exists. */
  predicate Spends(d: Taken) {
    d.situation.hasCheckpoint && (d.route == RefineSafety || d.route == Repair || d.route == Reset)
  }

  /** Every decision follows at least one new valid edit. */
  predicate EditBeforeEachDecision(events: seq<Event>) {
    forall i :: 0 <= i < |events| && events[i].Decision? ==> i > 0 && events[i - 1].Edit?
  }

  lemma {:induction false} EditsCoverDecisions(budget: nat, events: seq<Event>)
    requires EditBeforeEachDecision(events)
    ensures var p, n := Run(budget, events), |Decisions(budget, events)|;
      && p.budget == NewPolicy(budget).budget
      && p.validEdits >= Min(n + (if events != [] && events[|events| - 1].Edit? then 1 else 0), U32_MAX)
  {
    if events != [] {
      var before, e := events[..|events| - 1], events[|events| - 1];
      EditsCoverDecisions(budget, before);
      PushedDecision(budget, events);
      if e.Decision? {
        DecisionKeeps(Run(budget, before), e.situation);
      }
    }
  }

  /** Then at most `max(budget, 2) - 1` decisions made with a checkpoint explore further. */
  lemma {:induction false} ExplorationIsBounded(budget: nat, events: seq<Event>)
    requires EditBeforeEachDecision(events) && budget <= U32_MAX
    ensures Count(Decisions(budget, events), Spends) <= Min(|Decisions(budget, events)|, NewPolicy(budget).budget - 1)
  {
    if events != [] {
      var before, e := events[..|events| - 1], events[|events| - 1];
      ExplorationIsBounded(budget, before);
      EditsCoverDecisions(budget, before);
      PushedDecision(budget, events);
    }
  }
}
