/** Best-candidate retention for serial repair.

    The store keeps one checkpoint.  A new candidate replaces it when its evidence is better, or
    when the evidence is equal and its patch properly contains the retained patch, as multisets of
    changed lines.  Patches are sequences of lines; a fingerprint is an arbitrary string. */
module Checkpoint {
  import opened Wrappers
  import opened Arithmetic
  import opened Signals

  datatype Evidence = Evidence(
    structuralPass: bool,
    taskScopeImproved: bool,
    regressionPass: bool,
    reproducerFixed: bool,
    changedLines: nat)
  {
    /** Four flags, the most significant first. */
    function Quality(): seq<nat> {
      [Flag(reproducerFixed), Flag(taskScopeImproved), Flag(regressionPass), Flag(structuralPass)]
    }

    predicate IsBacked() {
      structuralPass || taskScopeImproved || regressionPass || reproducerFixed
    }

    function ObserveScope(signal: ScopeSignal): Evidence {
      match signal
      case StructuralPass => this.(structuralPass := true)
      case TaskScopeImproved => this.(structuralPass := true, taskScopeImproved := true)
      case RegressionPass => this.(structuralPass := true, regressionPass := true)
      case _ => this
    }

    function ObserveReproducer(delta: TestDelta): Evidence {
      if delta == Fixed then this.(structuralPass := true, reproducerFixed := true) else this
    }
  }

  const NO_EVIDENCE := Evidence(false, false, false, false, 0)

  datatype Candidate = Candidate(fingerprint: string, patch: seq<string>, evidence: Evidence)

  // ----- Changed lines of a patch -----

  datatype Atom = Atom(file: string, kind: char, content: string)

  predicate StartsWith(line: string, prefix: string) {
    prefix <= line
  }

  /** The atom that a line contributes while `file` is the current file. */
  function LineAtom(file: string, line: string): Option<Atom> {
    if line == "" || (line[0] != '+' && line[0] != '-') then None
    else if StartsWith(line, "+++") || StartsWith(line, "---") || file == "" then None
    else Some(Atom(file, line[0], line[1..]))
  }

  const HEADER := "diff --git "

  /** The file that is current after the first `n` lines: the last header's rest, or none. */
  function FileAt(patch: seq<string>, n: nat): string
    requires n <= |patch|
  {
    if n == 0 then ""
    else if StartsWith(patch[n - 1], HEADER) then patch[n - 1][|HEADER|..]
    else FileAt(patch, n - 1)
  }

  /** The changed lines among the first `n` lines. */
  function AtomsUpTo(patch: seq<string>, n: nat): multiset<Atom>
    requires n <= |patch|
  {
    if n == 0 then multiset{}
    else if StartsWith(patch[n - 1], HEADER) then AtomsUpTo(patch, n - 1)
    else
      match LineAtom(FileAt(patch, n - 1), patch[n - 1])
      case Some(atom) => AtomsUpTo(patch, n - 1) + multiset{atom}
      case None => AtomsUpTo(patch, n - 1)
  }

  function Atoms(patch: seq<string>): multiset<Atom> {
    AtomsUpTo(patch, |patch|)
  }

  /** One pass over the lines, carrying the current file. */
  method PatchChangeAtoms(patch: seq<string>) returns (atoms: multiset<Atom>)
    ensures atoms == Atoms(patch)
  {
    atoms := multiset{};
    var file := "";
    for i := 0 to |patch|
      invariant file == FileAt(patch, i) && atoms == AtomsUpTo(patch, i)
    {
      var line := patch[i];
      if StartsWith(line, HEADER) {
        file := line[|HEADER|..];
        continue;
      }
      var atom := LineAtom(file, line);
      if atom.Some? {
        atoms := atoms + multiset{atom.value};
      }
    }
  }

  // ----- What the changed lines are -----

  /** `file` is named by the last header before line `i`. */
  ghost predicate UnderHeader(patch: seq<string>, i: nat, file: string)
    requires i <= |patch|
  {
    exists h: nat :: h < i && patch[h] == HEADER + file && forall k :: h < k < i ==> !(HEADER <= patch[k])
  }

  /** Line `i` is this atom: a line that adds or removes text, not a file marker, under a header that
      names the file. */
  ghost predicate IsAtomLine(patch: seq<string>, i: nat, atom: Atom)
    requires i < |patch|
  {
    && patch[i] == [atom.kind] + atom.content && (atom.kind == '+' || atom.kind == '-')
    && !("+++" <= patch[i]) && !("---" <= patch[i])
    && atom.file != "" && UnderHeader(patch, i, atom.file)
  }

  lemma {:induction false} FileAtMeans(patch: seq<string>, n: nat, file: string)
    requires n <= |patch| && file != ""
    ensures FileAt(patch, n) == file <==> UnderHeader(patch, n, file)
  {
    if n > 0 {
      FileAtMeans(patch, n - 1, file);
      var line := patch[n - 1];
      if HEADER <= line {
        assert line == HEADER + line[|HEADER|..];
        assert (HEADER + file)[|HEADER|..] == file;
      }
    }
  }

  /** How many of the first `n` lines are this atom. */
  ghost function AtomLines(patch: seq<string>, n: nat, atom: Atom): nat
    requires n <= |patch|
  {
    if n == 0 then 0 else AtomLines(patch, n - 1, atom) + if IsAtomLine(patch, n - 1, atom) then 1 else 0
  }

  lemma LineAtomMeans(patch: seq<string>, i: nat, atom: Atom)
    requires i < |patch| && !StartsWith(patch[i], HEADER)
    ensures LineAtom(FileAt(patch, i), patch[i]) == Some(atom) <==> IsAtomLine(patch, i, atom)
  {
    var line := patch[i];
    if atom.file != "" {
      FileAtMeans(patch, i, atom.file);
    }
    if line != "" {
      assert line == [line[0]] + line[1..];
    }
    if line == [atom.kind] + atom.content {
      assert line[0] == atom.kind && line[1..] == atom.content;
    }
  }

  lemma HeaderIsNoAtom(patch: seq<string>, i: nat, atom: Atom)
    requires i < |patch| && StartsWith(patch[i], HEADER)
    ensures !IsAtomLine(patch, i, atom)
  {
    assert patch[i][0] == HEADER[0] == 'd';
  }

  lemma OneMoreAtom(patch: seq<string>, n: nat, atom: Atom)
    requires n < |patch|
    ensures AtomsUpTo(patch, n + 1)[atom] == AtomsUpTo(patch, n)[atom] + if IsAtomLine(patch, n, atom) then 1 else 0
  {
    if StartsWith(patch[n], HEADER) {
      HeaderIsNoAtom(patch, n, atom);
    } else {
      LineAtomMeans(patch, n, atom);
    }
  }

  /** The multiset counts, for every atom, the lines of the patch that are it. */
  lemma {:induction false} AtomsExactly(patch: seq<string>, n: nat, atom: Atom)
    requires n <= |patch|
    ensures AtomsUpTo(patch, n)[atom] == AtomLines(patch, n, atom)
  {
    if n > 0 {
      AtomsExactly(patch, n - 1, atom);
      OneMoreAtom(patch, n - 1, atom);
    }
  }

  // ----- Replacement -----

  /** The test of the source: more atoms in all, and no atom fewer. */
  predicate PatchStrictlyContains(candidate: seq<string>, retained: seq<string>) {
    var c, r := Atoms(candidate), Atoms(retained);
    r != multiset{} && |c| > |r| && forall atom :: atom in r ==> c[atom] >= r[atom]
  }

  /** Lexicographic order of tuples of equal length. */
  predicate Below(a: seq<nat>, b: seq<nat>)
    requires |a| == |b|
  {
    a != [] && (a[0] < b[0] || (a[0] == b[0] && Below(a[1..], b[1..])))
  }

  predicate ShouldReplace(best: Candidate, candidate: Candidate) {
    if candidate.evidence.Quality() != best.evidence.Quality()
    then Below(best.evidence.Quality(), candidate.evidence.Quality())
    else PatchStrictlyContains(candidate.patch, best.patch)
  }

  /** The count test is proper containment of a non-empty multiset. */
  lemma ContainmentIsProper(candidate: seq<string>, retained: seq<string>)
    ensures PatchStrictlyContains(candidate, retained) <==>
            Atoms(retained) != multiset{} && Atoms(retained) < Atoms(candidate)
  {
    var c, r := Atoms(candidate), Atoms(retained);
    if forall atom :: atom in r ==> c[atom] >= r[atom] {
      assert r <= c;
      assert c == r + (c - r);
      assert |c| == |r| + |c - r|;
    }
  }

  lemma {:induction false} BelowTransitive(a: seq<nat>, b: seq<nat>, c: seq<nat>)
    requires |a| == |b| == |c| && Below(a, b) && Below(b, c)
    ensures Below(a, c)
  {
    if a[0] == b[0] && b[0] == c[0] {
      BelowTransitive(a[1..], b[1..], c[1..]);
    }
  }

  lemma {:induction false} BelowTotal(a: seq<nat>, b: seq<nat>)
    requires |a| == |b|
    ensures (Below(a, b) || Below(b, a)) <==> a != b
    ensures !(Below(a, b) && Below(b, a))
  {
    if a != [] {
      BelowTotal(a[1..], b[1..]);
      assert a == [a[0]] + a[1..] && b == [b[0]] + b[1..];
    }
  }

  /** A fixed reproducer counts most, then an improved task scope, then a regression pass, then a
      structural pass. */
  lemma QualityOrder(a: Evidence, b: Evidence)
    ensures Below(a.Quality(), b.Quality()) <==>
            if a.reproducerFixed != b.reproducerFixed then b.reproducerFixed
            else if a.taskScopeImproved != b.taskScopeImproved then b.taskScopeImproved
            else if a.regressionPass != b.regressionPass then b.regressionPass
            else b.structuralPass && !a.structuralPass
    ensures a.Quality() == b.Quality() <==>
            && a.reproducerFixed == b.reproducerFixed && a.taskScopeImproved == b.taskScopeImproved
            && a.regressionPass == b.regressionPass && a.structuralPass == b.structuralPass
  {
    var x, y := a.Quality(), b.Quality();
    assert x[1..][1..][1..][1..] == [] && y[1..][1..][1..][1..] == [];
    assert Below(x[1..][1..][1..], y[1..][1..][1..]) <==> x[3] < y[3];
    assert Below(x[1..][1..], y[1..][1..]) <==> x[2] < y[2] || (x[2] == y[2] && x[3] < y[3]);
    assert x == y <==> x[0] == y[0] && x[1] == y[1] && x[2] == y[2] && x[3] == y[3];
  }

  /** Replacement is a strict partial order. */
  lemma ReplacementIsIrreflexive(a: Candidate)
    ensures !ShouldReplace(a, a)
  {
  }

  /** A candidate replaces the retained one exactly if its evidence is better, or equal while its
      changed lines properly include all of a non-empty retained patch. */
  lemma ReplacesExactly(best: Candidate, c: Candidate)
    ensures ShouldReplace(best, c) <==>
            || Below(best.evidence.Quality(), c.evidence.Quality())
            || (&& best.evidence.Quality() == c.evidence.Quality()
                && Atoms(best.patch) != multiset{} && Atoms(best.patch) < Atoms(c.patch))
  {
    BelowTotal(best.evidence.Quality(), c.evidence.Quality());
    ContainmentIsProper(c.patch, best.patch);
  }

  lemma ReplacementIsTransitive(a: Candidate, b: Candidate, c: Candidate)
    requires ShouldReplace(a, b) && ShouldReplace(b, c)
    ensures ShouldReplace(a, c)
  {
    var qa, qb, qc := a.evidence.Quality(), b.evidence.Quality(), c.evidence.Quality();
    BelowTotal(qa, qb);
    BelowTotal(qb, qc);
    BelowTotal(qa, qc);
    if qa != qb && qb != qc {
      BelowTransitive(qa, qb, qc);
    }
    ContainmentIsProper(b.patch, a.patch);
    ContainmentIsProper(c.patch, b.patch);
    ContainmentIsProper(c.patch, a.patch);
  }

  // ----- The store -----

  datatype CurrentPatch = CurrentPatch(fingerprint: string, patch: seq<string>, changedLines: nat)

  /** What `git` reports when the current patch is read. */
  type PatchReading = Result<CurrentPatch, string>

  datatype Store = Store(currentFingerprint: Option<string>, current: Evidence, best: Option<Candidate>)

  datatype Op =
    | BeginPatch(fingerprint: string)
    | ObserveScope(signal: ScopeSignal, reading: PatchReading)
    | ObserveReproducer(delta: TestDelta, reading: PatchReading)

  const EMPTY_STORE := Store(None, NO_EVIDENCE, None)

  /** The candidate that an observation puts forward, if any. */
  function Considered(s: Store, reading: PatchReading): Option<Candidate> {
    if !s.current.IsBacked() || reading.Failure? || reading.value.patch == [] then None
    else Some(Candidate(reading.value.fingerprint, reading.value.patch,
                        s.current.(changedLines := reading.value.changedLines)))
  }

  function Consider(s: Store, reading: PatchReading): Store {
    match Considered(s, reading)
    case None => s
    case Some(candidate) =>
      Store(Some(candidate.fingerprint), candidate.evidence,
            if s.best.None? || ShouldReplace(s.best.value, candidate) then Some(candidate) else s.best)
  }

  function Observe(s: Store, op: Op): Store {
    match op
    case BeginPatch(fingerprint) =>
      if s.currentFingerprint == Some(fingerprint) then s
      else s.(currentFingerprint := Some(fingerprint), current := NO_EVIDENCE)
    case ObserveScope(signal, _) => s.(current := s.current.ObserveScope(signal))
    case ObserveReproducer(delta, _) => s.(current := s.current.ObserveReproducer(delta))
  }

  function Step(s: Store, op: Op): Store {
    match op
    case BeginPatch(_) => Observe(s, op)
    case ObserveScope(_, reading) => Consider(Observe(s, op), reading)
    case ObserveReproducer(_, reading) => Consider(Observe(s, op), reading)
  }

  function Run(ops: seq<Op>): Store {
    if ops == [] then EMPTY_STORE else Step(Run(ops[..|ops| - 1]), ops[|ops| - 1])
  }

  /** The candidate that the last operation of a run puts forward. */
  function CandidateOf(s: Store, op: Op): Option<Candidate> {
    match op
    case BeginPatch(_) => None
    case ObserveScope(_, reading) => Considered(Observe(s, op), reading)
    case ObserveReproducer(_, reading) => Considered(Observe(s, op), reading)
  }

  /** Every candidate of the run, in order. */
  function History(ops: seq<Op>): seq<Candidate> {
    if ops == [] then []
    else
      var before := ops[..|ops| - 1];
      match CandidateOf(Run(before), ops[|ops| - 1])
      case None => History(before)
      case Some(candidate) => History(before) + [candidate]
  }

  datatype Update = Captured(fingerprint: string) | Retained(fingerprint: string) | Skipped(reason: string)

  class CausalCheckpointStore {
    var currentFingerprint: Option<string>
    var current: Evidence
    var best: Option<Candidate>

    ghost function View(): Store
      reads this
    {
      Store(currentFingerprint, current, best)
    }

    constructor ()
      ensures View() == EMPTY_STORE
    {
      currentFingerprint := None;
      current := NO_EVIDENCE;
      best := None;
    }

    method Begin(fingerprint: string)
      modifies this
      ensures View() == Step(old(View()), BeginPatch(fingerprint))
    {
      if currentFingerprint != Some(fingerprint) {
        currentFingerprint := Some(fingerprint);
        current := NO_EVIDENCE;
      }
    }

    method Scope(signal: ScopeSignal, reading: PatchReading) returns (update: Update)
      modifies this
      ensures View() == Step(old(View()), ObserveScope(signal, reading))
      ensures update.Captured? <==> best != old(best)
      ensures update.Skipped? <==> CandidateOf(old(View()), ObserveScope(signal, reading)).None?
    {
      current := current.ObserveScope(signal);
      update := ConsiderCurrent(reading);
    }

    method Reproducer(delta: TestDelta, reading: PatchReading) returns (update: Update)
      modifies this
      ensures View() == Step(old(View()), ObserveReproducer(delta, reading))
      ensures update.Captured? <==> best != old(best)
      ensures update.Skipped? <==> CandidateOf(old(View()), ObserveReproducer(delta, reading)).None?
    {
      current := current.ObserveReproducer(delta);
      update := ConsiderCurrent(reading);
    }

    method ConsiderCurrent(reading: PatchReading) returns (update: Update)
      modifies this
      ensures View() == Consider(old(View()), reading)
      ensures update.Captured? <==> best != old(best)
      ensures update.Skipped? <==> Considered(old(View()), reading).None?
    {
      if !current.IsBacked() {
        return Skipped("no positive typed evidence for current patch");
      }
      if reading.Failure? {
        return Skipped(reading.error);
      }
      if reading.value.patch == [] {
        return Skipped("no tracked candidate diff to checkpoint");
      }
      if currentFingerprint != Some(reading.value.fingerprint) {
        currentFingerprint := Some(reading.value.fingerprint);
        current := current.(changedLines := reading.value.changedLines);
      }
      current := current.(changedLines := reading.value.changedLines);
      var candidate := Candidate(reading.value.fingerprint, reading.value.patch, current);
      if best.None? || ShouldReplace(best.value, candidate) {
        if best.Some? {
          ReplacementIsIrreflexive(candidate);
        }
        best := Some(candidate);
        return Captured(candidate.fingerprint);
      }
      return Retained(best.value.fingerprint);
    }
  }

  // ----- What a run retains -----

  /** `best` beats or ties everything: nothing considered would replace it, and no quality is higher. */
  ghost predicate IsBestOf(best: Candidate, candidates: seq<Candidate>) {
    forall c :: c in candidates ==> !ShouldReplace(best, c) && !Below(best.evidence.Quality(), c.evidence.Quality())
  }

  lemma NotReplacedNotBelow(best: Candidate, c: Candidate)
    requires !ShouldReplace(best, c)
    ensures !Below(best.evidence.Quality(), c.evidence.Quality())
  {
    BelowTotal(best.evidence.Quality(), c.evidence.Quality());
  }

  /** After any run of observations the retained checkpoint is one of the candidates considered,
      none of them would replace it, and its evidence quality is the highest seen. */
  lemma {:induction false} RetainedIsBest(ops: seq<Op>)
    ensures Run(ops).best.None? <==> History(ops) == []
    ensures Run(ops).best.Some? ==> Run(ops).best.value in History(ops) && IsBestOf(Run(ops).best.value, History(ops))
  {
    if ops != [] {
      var before, op := ops[..|ops| - 1], ops[|ops| - 1];
      var s := Run(before);
      RetainedIsBest(before);
      var offered := CandidateOf(s, op);
      if offered.Some? {
        var candidate := offered.value;
        var best := Run(ops).best.value;
        forall c | c in History(ops) ensures !ShouldReplace(best, c) {
          if s.best.Some? && best == candidate && ShouldReplace(best, c) {
            ReplacementIsTransitive(s.best.value, best, c);
            ReplacementIsIrreflexive(candidate);
          }
          ReplacementIsIrreflexive(candidate);
        }
        forall c | c in History(ops) ensures !Below(best.evidence.Quality(), c.evidence.Quality()) {
          NotReplacedNotBelow(best, c);
        }
      }
    }
  }

  // ----- Evidence is observed, never invented -----

  datatype Kind = Structural | TaskScope | Regression | Reproducer

  predicate Holds(e: Evidence, kind: Kind) {
    match kind
    case Structural => e.structuralPass
    case TaskScope => e.taskScopeImproved
    case Regression => e.regressionPass
    case Reproducer => e.reproducerFixed
  }

  predicate Reports(op: Op, kind: Kind) {
    match kind
    case Structural => (op.ObserveScope? && op.signal.IsPassLike()) || (op.ObserveReproducer? && op.delta == Fixed)
    case TaskScope => op.ObserveScope? && op.signal == TaskScopeImproved
    case Regression => op.ObserveScope? && op.signal == RegressionPass
    case Reproducer => op.ObserveReproducer? && op.delta == Fixed
  }

  predicate Reported(ops: seq<Op>, kind: Kind) {
    exists op :: op in ops && Reports(op, kind)
  }

  predicate Restarts(s: Store, op: Op) {
    op.BeginPatch? && s.currentFingerprint != Some(op.fingerprint)
  }

  /** The operations since a patch was begun under another fingerprint than the current one. */
  function SinceBegin(ops: seq<Op>): seq<Op> {
    if ops == [] then []
    else
      var before, op := ops[..|ops| - 1], ops[|ops| - 1];
      if Restarts(Run(before), op) then [] else SinceBegin(before) + [op]
  }

  lemma ReportedMore(ops: seq<Op>, op: Op, kind: Kind)
    ensures Reported(ops + [op], kind) <==> Reported(ops, kind) || Reports(op, kind)
  {
    assert forall o :: o in ops + [op] <==> o in ops || o == op;
  }

  lemma StepHolds(s: Store, op: Op, kind: Kind)
    ensures Holds(Step(s, op).current, kind) <==> !Restarts(s, op) && (Holds(s.current, kind) || Reports(op, kind))
  {
  }

  /** The current evidence holds exactly what was reported since the patch was begun. */
  lemma {:induction false} CurrentEvidenceExactly(ops: seq<Op>, kind: Kind)
    ensures Holds(Run(ops).current, kind) <==> Reported(SinceBegin(ops), kind)
  {
    if ops != [] {
      var before, op := ops[..|ops| - 1], ops[|ops| - 1];
      CurrentEvidenceExactly(before, kind);
      StepHolds(Run(before), op, kind);
      ReportedMore(SinceBegin(before), op, kind);
    }
  }

  /** The last operation makes its candidate the retained one. */
  predicate Captures(s: Store, op: Op) {
    var offered := CandidateOf(s, op);
    offered.Some? && (s.best.None? || ShouldReplace(s.best.value, offered.value))
  }

  lemma CaptureIsRetained(s: Store, op: Op)
    requires Captures(s, op)
    ensures Step(s, op).best == CandidateOf(s, op) && Step(s, op).best.value.evidence == Step(s, op).current
  {
  }

  lemma CapturedEvidence(ops: seq<Op>, c: Candidate)
    requires c.evidence == Run(ops).current
    ensures forall kind :: Holds(c.evidence, kind) <==> Reported(SinceBegin(ops), kind)
  {
    forall kind ensures Holds(c.evidence, kind) <==> Reported(SinceBegin(ops), kind) {
      CurrentEvidenceExactly(ops, kind);
    }
  }

  /** The candidate is what was read. */
  predicate IsReadingOf(reading: PatchReading, c: Candidate) {
    && reading.Success? && reading.value.patch != []
    && c.fingerprint == reading.value.fingerprint && c.patch == reading.value.patch
    && c.evidence.changedLines == reading.value.changedLines
  }

  /** The retained checkpoint was captured by one operation of the run, and its evidence holds
      exactly what was reported by then since the patch was begun. */
  lemma {:induction false} RetainedEvidenceExactly(ops: seq<Op>) returns (n: nat)
    requires Run(ops).best.Some?
    ensures n < |ops| && Captures(Run(ops[..n]), ops[n]) && Run(ops[..n + 1]).best == Run(ops).best
    ensures forall kind ::
              Holds(Run(ops).best.value.evidence, kind) <==> Reported(SinceBegin(ops[..n + 1]), kind)
    ensures !ops[n].BeginPatch? && IsReadingOf(ops[n].reading, Run(ops).best.value)
  {
    n := |ops| - 1;
    var before := ops[..n];
    assert ops[..n + 1] == ops;
    if Captures(Run(before), ops[n]) {
      CaptureIsRetained(Run(before), ops[n]);
      CapturedEvidence(ops, Run(ops).best.value);
    } else {
      n := RetainedEvidenceExactly(before);
      assert before[..n] == ops[..n] && before[..n + 1] == ops[..n + 1];
    }
  }

  // ----- Whose evidence it is -----

  /** The operation observed the candidate's own patch. */
  predicate Read(op: Op, c: Candidate) {
    && !op.BeginPatch? && op.reading.Success?
    && op.reading.value.fingerprint == c.fingerprint && op.reading.value.patch == c.patch
  }

  predicate ReportedOn(ops: seq<Op>, kind: Kind, c: Candidate) {
    exists op :: op in ops && Reports(op, kind) && Read(op, c)
  }

  /** Every flag of the candidate was reported by an operation that read its patch. */
  ghost predicate Attributed(ops: seq<Op>, c: Candidate) {
    forall kind :: Holds(c.evidence, kind) ==> ReportedOn(ops, kind, c)
  }

  /** Whatever was reported since the patch was begun was reported on this candidate's patch too. */
  ghost predicate ReportsCover(ops: seq<Op>, c: Candidate) {
    forall kind :: Reported(SinceBegin(ops), kind) ==> ReportedOn(ops, kind, c)
  }

  /** At every point of the run the evidence of the retained checkpoint is its own. */
  ghost predicate AlwaysAttributed(ops: seq<Op>) {
    && (ops != [] ==> AlwaysAttributed(ops[..|ops| - 1]))
    && (Run(ops).best.Some? ==> Attributed(ops, Run(ops).best.value))
  }

  /** Every operation that captures a candidate comes after the candidate's patch was seen with
      everything reported since it was begun. */
  ghost predicate CapturesCovered(ops: seq<Op>) {
    ops != [] ==>
      var before, op := ops[..|ops| - 1], ops[|ops| - 1];
      && CapturesCovered(before)
      && (Captures(Run(before), op) ==> ReportsCover(ops, CandidateOf(Run(before), op).value))
  }

  lemma AttributedLater(ops: seq<Op>, op: Op, c: Candidate)
    requires Attributed(ops, c)
    ensures Attributed(ops + [op], c)
  {
    forall kind | Holds(c.evidence, kind) ensures ReportedOn(ops + [op], kind, c) {
      var o :| o in ops && Reports(o, kind) && Read(o, c);
      assert o in ops + [op];
    }
  }

  lemma CoveredAttributes(ops: seq<Op>, c: Candidate)
    requires forall kind :: Holds(c.evidence, kind) <==> Reported(SinceBegin(ops), kind)
    ensures Attributed(ops, c) <==> ReportsCover(ops, c)
  {
  }

  lemma CapturedIsAttributed(ops: seq<Op>)
    requires ops != [] && Captures(Run(ops[..|ops| - 1]), ops[|ops| - 1])
    ensures Run(ops).best.Some? && Run(ops).best == CandidateOf(Run(ops[..|ops| - 1]), ops[|ops| - 1])
    ensures Attributed(ops, Run(ops).best.value) <==> ReportsCover(ops, Run(ops).best.value)
  {
    CaptureIsRetained(Run(ops[..|ops| - 1]), ops[|ops| - 1]);
    var c := Run(ops).best.value;
    CapturedEvidence(ops, c);
    CoveredAttributes(ops, c);
  }

  /** In every run the retained evidence always belongs to the patch it is stored with exactly if
      each capture was covered by reports on the captured patch. */
  lemma {:induction false} AttributedExactlyWhen(ops: seq<Op>)
    ensures AlwaysAttributed(ops) <==> CapturesCovered(ops)
  {
    if ops != [] {
      var before, op := ops[..|ops| - 1], ops[|ops| - 1];
      AttributedExactlyWhen(before);
      assert ops == before + [op];
      if Captures(Run(before), op) {
        CapturedIsAttributed(ops);
      } else if Run(ops).best.Some? && AlwaysAttributed(before) {
        AttributedLater(before, op, Run(before).best.value);
      }
    }
  }

  // ----- A discipline that suffices -----

  /** Every observation since the patch was begun reads one and the same patch. */
  ghost predicate ReadsAgree(ops: seq<Op>) {
    forall a, b :: a in SinceBegin(ops) && b in SinceBegin(ops) && !a.BeginPatch? && !b.BeginPatch? ==>
      a.reading == b.reading
  }

  /** A capture is covered if all readings since the patch was begun agree. */
  lemma AgreementCovers(ops: seq<Op>)
    requires ops != [] && Captures(Run(ops[..|ops| - 1]), ops[|ops| - 1]) && ReadsAgree(ops)
    ensures ReportsCover(ops, CandidateOf(Run(ops[..|ops| - 1]), ops[|ops| - 1]).value)
  {
    var op, since := ops[|ops| - 1], SinceBegin(ops);
    var c := CandidateOf(Run(ops[..|ops| - 1]), op).value;
    SinceBeginIsPart(ops);
    assert op in since && Read(op, c);
    forall kind | Reported(since, kind) ensures ReportedOn(ops, kind, c) {
      var o :| o in since && Reports(o, kind);
      assert Read(o, c);
    }
  }

  lemma {:induction false} SinceBeginIsPart(ops: seq<Op>)
    ensures forall op :: op in SinceBegin(ops) ==> op in ops
  {
    if ops != [] {
      SinceBeginIsPart(ops[..|ops| - 1]);
    }
  }

  lemma {:induction false} AgreementAttributes(ops: seq<Op>)
    requires forall n :: 0 <= n <= |ops| ==> ReadsAgree(ops[..n])
    ensures CapturesCovered(ops) && AlwaysAttributed(ops)
  {
    AttributedExactlyWhen(ops);
    if ops != [] {
      var before := ops[..|ops| - 1];
      assert forall n :: 0 <= n <= |before| ==> before[..n] == ops[..n];
      AgreementAttributes(before);
      assert ops[..|ops|] == ops;
      if Captures(Run(before), ops[|ops| - 1]) {
        AgreementCovers(ops);
      }
    }
  }

  // ----- Evidence on the wrong patch -----

  const SMALL_PATCH := CurrentPatch("small", ["diff --git f", "+x"], 1)
  const GROWN_PATCH := CurrentPatch("grown", ["diff --git f", "+x", "+y"], 2)

  lemma GrownContainsSmall()
    ensures PatchStrictlyContains(GROWN_PATCH.patch, SMALL_PATCH.patch)
  {
    var small, grown := SMALL_PATCH.patch, GROWN_PATCH.patch;
    var x, y := Atom("f", '+', "x"), Atom("f", '+', "y");
    assert AtomsUpTo(small, 1) == multiset{} && FileAt(small, 1) == "f";
    assert AtomsUpTo(small, 2) == multiset{x};
    assert AtomsUpTo(grown, 1) == multiset{} && FileAt(grown, 1) == "f" && FileAt(grown, 2) == "f";
    assert AtomsUpTo(grown, 2) == multiset{x};
    assert AtomsUpTo(grown, 3) == multiset{x, y};
  }

  const PASSED := ObserveScope(RegressionPass, Success(SMALL_PATCH))
  const FAILED := ObserveScope(RegressionFailure, Success(GROWN_PATCH))

  lemma GrownIsRetained(small: Candidate, grown: Candidate)
    requires small == Candidate("small", SMALL_PATCH.patch, Evidence(true, false, true, false, 1))
    requires grown == Candidate("grown", GROWN_PATCH.patch, Evidence(true, false, true, false, 2))
    ensures Step(Step(EMPTY_STORE, PASSED), FAILED).best == Some(grown)
  {
    GrownContainsSmall();
    assert Step(EMPTY_STORE, PASSED) == Store(Some("small"), small.evidence, Some(small));
    assert ShouldReplace(small, grown);
  }

  /** The regression passes on a patch, then fails on a grown one that was not begun: the grown
      patch is retained, with the pass. */
  lemma EvidenceCanBeForeign(grown: Candidate)
    requires grown == Candidate("grown", GROWN_PATCH.patch, Evidence(true, false, true, false, 2))
    ensures Run([PASSED, FAILED]).best == Some(grown) && !Attributed([PASSED, FAILED], grown)
  {
    GrownIsRetained(Candidate("small", SMALL_PATCH.patch, Evidence(true, false, true, false, 1)), grown);
    assert [PASSED, FAILED][..1] == [PASSED] && [PASSED][..0] == [];
    assert Run([PASSED]) == Step(EMPTY_STORE, PASSED);
    assert Holds(grown.evidence, Regression) && !Read(PASSED, grown);
  }
}
