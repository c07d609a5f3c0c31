/** The append-only trace of a causal repair trajectory. */
module CausalRepair {
  import opened Wrappers
  import opened Arithmetic
  import opened Signals

  datatype CausalState =
    | Prepared
    | BaselineMapped
    | ReproducerQualified
    | DirectRepairNoOracle
    | RepairPlanned
    | PatchApplied
    | StructuralGreen
    | ReproducerGreen
    | RegressionGreen
    | BroadenedGreen
    | Frozen

  datatype CausalEvent =
    | MapBaseline(candidateCount: nat)
    | QualifyReproducer
    | NoCausalOracle(reason: string)
    | PlanRepair(reason: string)
    | ApplyPatch(fingerprint: string)
    | PassStructural
    | FailStructural(reason: string)
    | LoseStructural(reason: string)
    | ObserveDelta(delta: TestDelta)
    | PassRegression
    | FailRegression(reason: string)
    | ObserveValidation(signal: string, detail: string)
    | PassBroadened
    | Freeze(reason: string)

  function NextState(state: CausalState, event: CausalEvent): Option<CausalState> {
    var open := state != Prepared && state != Frozen;
    match event
    case Freeze(_) => Some(Frozen)
    case ObserveValidation(_, _) => if state != Frozen then Some(state) else None
    case MapBaseline(_) => if state == Prepared then Some(BaselineMapped) else None
    case QualifyReproducer => if open then Some(ReproducerQualified) else None
    case NoCausalOracle(_) => if state == BaselineMapped then Some(DirectRepairNoOracle) else None
    case PlanRepair(_) => if open then Some(RepairPlanned) else None
    case ApplyPatch(_) => if state == RepairPlanned then Some(PatchApplied) else None
    case PassStructural => if state == PatchApplied then Some(StructuralGreen) else None
    case FailStructural(_) => if open then Some(RepairPlanned) else None
    case LoseStructural(_) => if open then Some(RepairPlanned) else None
    case FailRegression(_) => if open then Some(RepairPlanned) else None
    case ObserveDelta(delta) =>
      if state != StructuralGreen then None else Some(if delta == Fixed then ReproducerGreen else RepairPlanned)
    case PassRegression =>
      if state == StructuralGreen || state == ReproducerGreen then Some(RegressionGreen) else None
    case PassBroadened => if state == RegressionGreen then Some(BroadenedGreen) else None
  }

  /** States after the baseline and before the end. */
  predicate Open(state: CausalState) {
    state != Prepared && state != Frozen
  }

  /** Which events are accepted where, and where they lead. */
  lemma NextStateExactly(state: CausalState, event: CausalEvent, next: CausalState)
    ensures NextState(state, event) == Some(next) <==>
            || (event.Freeze? && next == Frozen)
            || (event.ObserveValidation? && state != Frozen && next == state)
            || (event.MapBaseline? && state == Prepared && next == BaselineMapped)
            || (event.NoCausalOracle? && state == BaselineMapped && next == DirectRepairNoOracle)
            || (event.QualifyReproducer? && Open(state) && next == ReproducerQualified)
            || ((event.PlanRepair? || event.FailStructural? || event.LoseStructural? || event.FailRegression?)
                && Open(state) && next == RepairPlanned)
            || (event.ApplyPatch? && state == RepairPlanned && next == PatchApplied)
            || (event.PassStructural? && state == PatchApplied && next == StructuralGreen)
            || (event == ObserveDelta(Fixed) && state == StructuralGreen && next == ReproducerGreen)
            || (event.ObserveDelta? && event.delta != Fixed && state == StructuralGreen && next == RepairPlanned)
            || (event.PassRegression? && state in {StructuralGreen, ReproducerGreen} && next == RegressionGreen)
            || (event.PassBroadened? && state == RegressionGreen && next == BroadenedGreen)
  {
  }

  datatype TraceEvent = TraceEvent(sequence: nat, before: CausalState, after: CausalState, event: CausalEvent, accepted: bool)

  datatype Controller = Controller(state: CausalState, sequence: nat, trace: seq<TraceEvent>)

  const NEW := Controller(Prepared, 0, [])

  /** The event is traced whether or not it is accepted; only an accepted one moves the state. */
  function Recorded(c: Controller, event: CausalEvent): Controller {
    var sequence := SaturatingInc(c.sequence);
    var next := NextState(c.state, event);
    var to := if next.Some? then next.value else c.state;
    Controller(to, sequence, c.trace + [TraceEvent(sequence, c.state, to, event, next.Some?)])
  }

  class CausalRepairController {
    var state: CausalState
    var sequence: nat
    var trace: seq<TraceEvent>

    ghost function View(): Controller
      reads this
    {
      Controller(state, sequence, trace)
    }

    constructor ()
      ensures View() == NEW
    {
      state, sequence, trace := Prepared, 0, [];
    }

    method Record(event: CausalEvent) returns (from: CausalState, to: CausalState, accepted: bool)
      modifies this
      ensures View() == Recorded(old(View()), event)
      ensures from == old(state) && to == state && (accepted <==> NextState(from, event).Some?)
    {
      sequence := SaturatingInc(sequence);
      from := state;
      var next := NextState(from, event);
      accepted := next.Some?;
      to := if accepted then next.value else from;
      if accepted {
        state := to;
      }
      trace := trace + [TraceEvent(sequence, from, to, event, accepted)];
    }
  }

  // ----- Runs -----

  function Run(events: seq<CausalEvent>): Controller {
    if events == [] then NEW else Recorded(Run(events[..|events| - 1]), events[|events| - 1])
  }

  /** The accepted events of a trace. */
  function AcceptedOf(trace: seq<TraceEvent>): seq<CausalEvent> {
    if trace == [] then []
    else
      var last := trace[|trace| - 1];
      AcceptedOf(trace[..|trace| - 1]) + if last.accepted then [last.event] else []
  }

  /** Replaying events from the start, refusing to go on after a rejected one. */
  function Replay(events: seq<CausalEvent>): Option<CausalState> {
    if events == [] then Some(Prepared)
    else
      match Replay(events[..|events| - 1])
      case None => None
      case Some(s) => NextState(s, events[|events| - 1])
  }

  /** Replaying only the accepted events of a run is accepted throughout and reproduces its state. */
  lemma {:induction false} ReplayReproduces(events: seq<CausalEvent>)
    ensures Replay(AcceptedOf(Run(events).trace)) == Some(Run(events).state)
  {
    if events != [] {
      var before := Run(events[..|events| - 1]);
      ReplayReproduces(events[..|events| - 1]);
      var after := Run(events);
      assert after.trace[..|after.trace| - 1] == before.trace;
      var accepted := AcceptedOf(before.trace);
      var event := events[|events| - 1];
      if NextState(before.state, event).Some? {
        assert (accepted + [event])[..|accepted|] == accepted;
      } else {
        assert accepted + [] == accepted;
      }
    }
  }

  /** Entry `i` of a trace records event `i`: numbered from 1 (as far as 32 bits count), starting
      in the state of the entry before it, and moving exactly when the event is accepted. */
  ghost predicate LinkedAt(trace: seq<TraceEvent>, events: seq<CausalEvent>, i: nat)
    requires i < |events| == |trace|
  {
    var t, from := trace[i], StateAt(trace, i);
    && t.event == events[i] && t.sequence == Saturated(i + 1) && t.before == from
    && (t.accepted <==> NextState(from, events[i]).Some?)
    && t.after == (if t.accepted then NextState(from, events[i]).value else from)
  }

  /** The state before entry `i`, as the trace tells it. */
  function StateAt(trace: seq<TraceEvent>, i: nat): CausalState
    requires i <= |trace|
  {
    if i == 0 then Prepared else trace[i - 1].after
  }

  function Saturated(n: nat): nat {
    if n < U32_MAX then n else U32_MAX
  }

  /** The trace tells the whole run: every event, accepted or not, in order and connected. */
  lemma {:induction false} TraceIsConnected(events: seq<CausalEvent>)
    ensures var c := Run(events);
      && |c.trace| == |events|
      && (forall i :: 0 <= i < |events| ==> LinkedAt(c.trace, events, i))
      && c.state == StateAt(c.trace, |c.trace|) && c.sequence == Saturated(|events|)
  {
    if events != [] {
      var n := |events| - 1;
      var before, after := Run(events[..n]), Run(events);
      TraceIsConnected(events[..n]);
      assert after.trace[..n] == before.trace;
      forall i | 0 <= i < |events| ensures LinkedAt(after.trace, events, i) {
        if i < n {
          assert LinkedAt(before.trace, events[..n], i);
          assert after.trace[i] == before.trace[i] && StateAt(after.trace, i) == StateAt(before.trace, i);
        } else {
          assert StateAt(after.trace, n) == before.state;
        }
      }
    }
  }

  /** Frozen is absorbing: once it is reached no later event leaves it. */
  lemma {:induction false} FrozenIsAbsorbing(events: seq<CausalEvent>, more: seq<CausalEvent>)
    requires Run(events).state == Frozen
    ensures Run(events + more).state == Frozen
  {
    if more == [] {
      assert events + more == events;
    } else {
      var n := |more| - 1;
      assert (events + more)[..|events| + n] == events + more[..n];
      FrozenIsAbsorbing(events, more[..n]);
    }
  }

  /** Bad news always counts: in every run a failed validation takes an open trajectory, however
      green, back to planning, and is traced as accepted. */
  lemma BadNewsCounts(events: seq<CausalEvent>, event: CausalEvent)
    requires event.FailRegression? || event.FailStructural? || event.LoseStructural?
    requires Open(Run(events).state)
    ensures var c := Run(events + [event]);
      c.state == RepairPlanned && |c.trace| == |events| + 1 && c.trace[|events|].accepted
  {
    OneMore(events, event);
    NextStateExactly(Run(events).state, event, RepairPlanned);
    TraceIsConnected(events);
  }

  /** A patch can always be planned, applied and validated to the end. */
  lemma GreenIsReachable(events: seq<CausalEvent>, reason: string, fingerprint: string)
    requires Open(Run(events).state)
    ensures Run(events + [PlanRepair(reason)] + [ApplyPatch(fingerprint)] + [PassStructural] + [ObserveDelta(Fixed)]
                + [PassRegression] + [PassBroadened]).state == BroadenedGreen
  {
    OneMore(events, PlanRepair(reason));
    var a := events + [PlanRepair(reason)];
    OneMore(a, ApplyPatch(fingerprint));
    var b := a + [ApplyPatch(fingerprint)];
    OneMore(b, PassStructural);
    var c := b + [PassStructural];
    OneMore(c, ObserveDelta(Fixed));
    var d := c + [ObserveDelta(Fixed)];
    OneMore(d, PassRegression);
    OneMore(d + [PassRegression], PassBroadened);
  }

  lemma OneMore(events: seq<CausalEvent>, event: CausalEvent)
    ensures Run(events + [event]) == Recorded(Run(events), event)
  {
    assert (events + [event])[..|events|] == events;
  }

  // ----- What a green state proves -----

  /** The accepted events since the last applied patch, observations left out; nothing if no patch
      was applied. */
  function SincePatch(accepted: seq<CausalEvent>): Option<seq<CausalEvent>> {
    if accepted == [] then None else Extended(SincePatch(accepted[..|accepted| - 1]), accepted[|accepted| - 1])
  }

  function Extended(since: Option<seq<CausalEvent>>, event: CausalEvent): Option<seq<CausalEvent>> {
    if event.ApplyPatch? then Some([])
    else if event.ObserveValidation? || since.None? then since
    else Some(since.value + [event])
  }

  const FIXED := ObserveDelta(Fixed)

  /** The evidence that a state of the patch phase stands for. */
  predicate Evidences(state: CausalState, since: Option<seq<CausalEvent>>) {
    match state
    case PatchApplied => since == Some([])
    case StructuralGreen => since == Some([PassStructural])
    case ReproducerGreen => since == Some([PassStructural, FIXED])
    case RegressionGreen =>
      since == Some([PassStructural, PassRegression]) || since == Some([PassStructural, FIXED, PassRegression])
    case BroadenedGreen =>
      || since == Some([PassStructural, PassRegression, PassBroadened])
      || since == Some([PassStructural, FIXED, PassRegression, PassBroadened])
    case _ => true
  }

  lemma EvidenceStep(state: CausalState, since: Option<seq<CausalEvent>>, event: CausalEvent)
    requires Evidences(state, since) && NextState(state, event).Some?
    ensures Evidences(NextState(state, event).value, Extended(since, event))
  {
    if since.Some? {
      var next := Extended(since, event).value;
      match event
      case PassStructural => assert next == [PassStructural];
      case ObserveDelta(_) => assert next == [PassStructural, event];
      case PassRegression =>
        assert next == [PassStructural, PassRegression] || next == [PassStructural, FIXED, PassRegression];
      case PassBroadened =>
        assert || next == [PassStructural, PassRegression, PassBroadened]
               || next == [PassStructural, FIXED, PassRegression, PassBroadened];
      case _ =>
    }
  }

  lemma {:induction false} ReplayEvidences(accepted: seq<CausalEvent>)
    requires Replay(accepted).Some?
    ensures Evidences(Replay(accepted).value, SincePatch(accepted))
  {
    if accepted != [] {
      var front := accepted[..|accepted| - 1];
      ReplayEvidences(front);
      EvidenceStep(Replay(front).value, SincePatch(front), accepted[|accepted| - 1]);
    }
  }

  /** A green state is never reached without its evidence: regression-green means that since the
      last applied patch exactly a structural pass, optionally a fixed reproducer, and a regression
      pass were accepted, apart from observations. */
  lemma GreenMeansEvidence(events: seq<CausalEvent>)
    ensures Evidences(Run(events).state, SincePatch(AcceptedOf(Run(events).trace)))
  {
    ReplayReproduces(events);
    ReplayEvidences(AcceptedOf(Run(events).trace));
  }
}
