/** The bounded bank of candidate patches.

    Every recorded candidate is appended, the bank is stably sorted by score (high first) and then
    by changed lines (few first), and cut to its capacity.  Test output enters as the flags that
    its text heuristics compute; `isSource` says which paths are authoritative source paths. */
module CandidateBank {
  import opened Wrappers
  import opened Arithmetic
  import opened Sequences
  import opened StableSort

  datatype ChangedFile = ChangedFile(path: string, lines: nat, anchor: nat)

  datatype CandidatePatch = CandidatePatch(
    id: nat,
    score: int,
    snapshot: string,
    changedFiles: seq<string>,
    changedLines: nat,
    failureSignature: string,
    scopeDesc: string,
    positiveFeedback: bool,
    feedbackOnly: bool,
    validationHits: nat)

  /** What the text heuristics report about a test output. */
  datatype TestSignals = TestSignals(signature: string, syntaxError: bool, invalidScope: bool, importError: bool, noTests: bool)

  function TotalLines(changed: seq<ChangedFile>): nat {
    if changed == [] then 0 else changed[0].lines + TotalLines(changed[1..])
  }

  function Paths(changed: seq<ChangedFile>): seq<string> {
    seq(|changed|, i requires 0 <= i < |changed| => changed[i].path)
  }

  predicate Authoritative(isSource: string -> bool, files: seq<string>, lines: nat) {
    lines > 0 && files != [] && forall p :: p in files ==> isSource(p)
  }

  function FailedScore(changed: seq<ChangedFile>, sameFailures: nat, signals: TestSignals): int {
    100 - 8 * SaturatingSub(|changed|, 1) - SaturatingSub(TotalLines(changed), 4) - 6 * SaturatingSub(sameFailures, 1)
    - (if signals.syntaxError then 35 else 0) - (if signals.invalidScope then 50 else 0)
    - (if signals.importError then 18 else 0) - (if signals.noTests then 20 else 0)
  }

  function PassScore(changed: seq<ChangedFile>, feedbackOnly: bool, hits: nat): int {
    var bonus := Min(SaturatingSub(hits, 1), 3);
    (if feedbackOnly then 45 + 8 * bonus else 140) - 10 * SaturatingSub(|changed|, 1) - SaturatingSub(TotalLines(changed), 8)
  }

  function CurrentScore(changed: seq<ChangedFile>): int {
    if changed == [] then -0x4000_0000
    else 100 - 8 * SaturatingSub(|changed|, 1) - SaturatingSub(TotalLines(changed), 4)
  }

  /** A trusted pass outranks a first clean failure of the same change unless the change is very
      wide: the pass pays 10 for every further file, the failure only 8. */
  lemma TrustedPassOutranksFailure(changed: seq<ChangedFile>, hits: nat, signals: TestSignals)
    requires !signals.syntaxError && !signals.invalidScope && !signals.importError && !signals.noTests
    ensures PassScore(changed, false, hits) > FailedScore(changed, 1, signals) <==>
            2 * SaturatingSub(|changed|, 1) < 40 + (if TotalLines(changed) < 8 then SaturatingSub(TotalLines(changed), 4) else 4)
  {
  }

  lemma {:induction false} OneLineEach(changed: seq<ChangedFile>)
    requires forall f :: f in changed ==> f.lines == 1
    ensures TotalLines(changed) == |changed|
  {
    if changed != [] {
      OneLineEach(changed[1..]);
    }
  }

  const CLEAN := TestSignals("", false, false, false, false)

  /** With one changed line in each of 23 files the two scores are equal. */
  lemma WidePassDoesNotOutrank(changed: seq<ChangedFile>, hits: nat)
    requires |changed| == 23 && forall f :: f in changed ==> f.lines == 1
    ensures PassScore(changed, false, hits) == -95 && FailedScore(changed, 1, CLEAN) == -95
  {
    OneLineEach(changed);
  }

  /** Corroboration never lifts a feedback-only pass over a trusted pass of the same change. */
  lemma CorroborationStaysBelowTrust(changed: seq<ChangedFile>, hits: nat)
    ensures PassScore(changed, true, hits) <= PassScore(changed, false, 1) - 71
  {
  }

  /** A first clean failure starts from 100 and loses 8 for every further file and 1 for every line
      beyond four. */
  lemma CleanScoreMeans(changed: seq<ChangedFile>)
    requires changed != []
    ensures FailedScore(changed, 1, CLEAN) == 108 - 8 * |changed| - SaturatingSub(TotalLines(changed), 4)
  {
  }

  /** What repeating a failure and each kind of unclean output cost. */
  lemma UncleanScoreMeans(changed: seq<ChangedFile>, sameFailures: nat, signals: TestSignals)
    requires sameFailures >= 1
    ensures FailedScore(changed, sameFailures, signals) ==
            FailedScore(changed, 1, CLEAN) - 6 * (sameFailures - 1)
            - 35 * Flag(signals.syntaxError) - 50 * Flag(signals.invalidScope)
            - 18 * Flag(signals.importError) - 20 * Flag(signals.noTests)
  {
  }

  /** The current diff scores as a first clean failure of it would, and an empty one below everything
      that can be weighed against it. */
  lemma CurrentScoreMeans(changed: seq<ChangedFile>)
    ensures changed != [] ==> CurrentScore(changed) == FailedScore(changed, 1, CLEAN)
    ensures CurrentScore([]) == -0x4000_0000
  {
  }

  // ----- The order of the bank -----

  predicate RanksBefore(a: CandidatePatch, b: CandidatePatch) {
    a.score > b.score || (a.score == b.score && a.changedLines <= b.changedLines)
  }

  lemma RankIsPreorder()
    ensures TotalPreorder(RanksBefore)
  {
  }

  /** A candidate as the recording methods build it, apart from its id. */
  datatype Recording =
    | FailedRun(changed: seq<ChangedFile>, signals: TestSignals, scopeDesc: string, sameFailures: nat, snapshot: string)
    | PassedRun(changed: seq<ChangedFile>, signals: TestSignals, scopeDesc: string, feedbackOnly: bool, snapshot: string)

  datatype Bank = Bank(candidates: seq<CandidatePatch>, nextId: nat)

  const EMPTY := Bank([], 1)

  /** Nothing is recorded without authoritative changes, nor from an invalid test scope. */
  predicate Eligible(isSource: string -> bool, r: Recording) {
    && r.changed != []
    && Authoritative(isSource, Paths(r.changed), TotalLines(r.changed))
    && !((r.FailedRun? || r.feedbackOnly) && r.signals.invalidScope)
  }

  function PassSignature(r: Recording): string
    requires r.PassedRun?
  {
    (if r.feedbackOnly then "pass:feedback:" else "pass:trusted:") + r.signals.signature
  }

  predicate SameAs(r: Recording, c: CandidatePatch) {
    match r
    case FailedRun(changed, signals, _, _, _) =>
      c.changedFiles == Paths(changed) && c.failureSignature == signals.signature
    case PassedRun(changed, _, scopeDesc, _, _) =>
      c.positiveFeedback && c.changedFiles == Paths(changed) && c.scopeDesc == scopeDesc
  }

  /** A feedback-only pass of the same files in another scope. */
  predicate Corroborates(r: Recording, c: CandidatePatch) {
    && r.PassedRun? && r.feedbackOnly && c.positiveFeedback && c.feedbackOnly
    && c.changedFiles == Paths(r.changed) && c.scopeDesc != r.scopeDesc
  }

  function IndexWhere(cs: seq<CandidatePatch>, p: CandidatePatch -> bool): (i: Option<nat>)
    ensures i.Some? ==> i.value < |cs| && p(cs[i.value])
    ensures forall j :: 0 <= j < (if i.Some? then i.value else |cs|) ==> !p(cs[j])
  {
    if cs == [] then None
    else if p(cs[0]) then Some(0)
    else match IndexWhere(cs[1..], p) case Some(i) => Some(i + 1) case None => None
  }

  /** The first candidate that is the recording already. */
  function DuplicateIn(cs: seq<CandidatePatch>, r: Recording): (i: Option<nat>)
    ensures i.Some? ==> i.value < |cs| && SameAs(r, cs[i.value])
    ensures i.None? ==> forall j :: 0 <= j < |cs| ==> !SameAs(r, cs[j])
  {
    IndexWhere(cs, c => SameAs(r, c))
  }

  /** The first candidate that the recording corroborates. */
  function CorroboratedIn(cs: seq<CandidatePatch>, r: Recording): (i: Option<nat>)
    ensures i.Some? ==> i.value < |cs| && Corroborates(r, cs[i.value])
    ensures forall j :: 0 <= j < (if i.Some? then i.value else |cs|) ==> !Corroborates(r, cs[j])
  {
    IndexWhere(cs, c => Corroborates(r, c))
  }

  function NewCandidate(r: Recording, id: nat): CandidatePatch {
    match r
    case FailedRun(changed, signals, scopeDesc, sameFailures, snapshot) =>
      CandidatePatch(id, FailedScore(changed, sameFailures, signals), snapshot, Paths(changed), TotalLines(changed),
                     signals.signature, scopeDesc, false, false, 0)
    case PassedRun(changed, _, scopeDesc, feedbackOnly, snapshot) =>
      CandidatePatch(id, PassScore(changed, feedbackOnly, 1), snapshot, Paths(changed), TotalLines(changed),
                     PassSignature(r), scopeDesc, true, feedbackOnly, 1)
  }

  function Corroborated(c: CandidatePatch, r: Recording): CandidatePatch
    requires r.PassedRun?
  {
    var hits := SaturatingInc(c.validationHits);
    c.(validationHits := hits, score := PassScore(r.changed, true, hits), failureSignature := PassSignature(r))
  }

  datatype Effect = Ignored | Rescored(index: nat) | Pushed(candidate: CandidatePatch)

  /** What a recording does to a bank. */
  function EffectOf(isSource: string -> bool, b: Bank, r: Recording): (e: Effect)
    ensures e.Rescored? ==> e.index < |b.candidates| && Corroborates(r, b.candidates[e.index])
  {
    if !Eligible(isSource, r) || DuplicateIn(b.candidates, r).Some? then Ignored
    else
      match CorroboratedIn(b.candidates, r)
      case Some(i) => Rescored(i)
      case None => Pushed(NewCandidate(r, b.nextId))
  }

  /** Nothing if it is not eligible or known already; otherwise it rescores the first candidate it
      corroborates, and exactly if there is none it is pushed under the next id. */
  lemma EffectExactly(isSource: string -> bool, b: Bank, r: Recording)
    ensures var e := EffectOf(isSource, b, r);
      && (e.Ignored? <==> !Eligible(isSource, r) || exists c :: c in b.candidates && SameAs(r, c))
      && (e.Rescored? ==> && Corroborates(r, b.candidates[e.index])
                          && forall j :: 0 <= j < e.index ==> !Corroborates(r, b.candidates[j]))
      && (e.Pushed? ==> e == Pushed(NewCandidate(r, b.nextId)) && forall c :: c in b.candidates ==> !Corroborates(r, c))
  {
  }

  /** What is recorded at all: a change of source files only, with changed lines, and not from an
      invalid test scope unless it passed on its own. */
  lemma EligibleMeans(isSource: string -> bool, r: Recording)
    ensures Eligible(isSource, r) <==>
            && r.changed != [] && TotalLines(r.changed) > 0
            && (forall k :: 0 <= k < |r.changed| ==> isSource(r.changed[k].path))
            && (r.signals.invalidScope ==> r.PassedRun? && !r.feedbackOnly)
  {
    var paths := Paths(r.changed);
    if forall p :: p in paths ==> isSource(p) {
      forall k | 0 <= k < |r.changed| ensures isSource(r.changed[k].path) {
        assert paths[k] in paths;
      }
    }
  }

  ghost predicate SameFiles(changed: seq<ChangedFile>, c: CandidatePatch) {
    |changed| == |c.changedFiles| && forall k :: 0 <= k < |changed| ==> changed[k].path == c.changedFiles[k]
  }

  /** What makes a recording a duplicate, and what it corroborates: a failure of the same files with
      the same signature, a pass of the same files in the same scope; and a feedback-only pass of the
      same files in another scope. */
  lemma MatchesMean(r: Recording, c: CandidatePatch)
    ensures SameAs(r, c) <==>
            && SameFiles(r.changed, c)
            && (r.FailedRun? ==> c.failureSignature == r.signals.signature)
            && (r.PassedRun? ==> c.positiveFeedback && c.scopeDesc == r.scopeDesc)
    ensures Corroborates(r, c) <==>
            && r.PassedRun? && r.feedbackOnly && c.positiveFeedback && c.feedbackOnly
            && SameFiles(r.changed, c) && c.scopeDesc != r.scopeDesc
  {
    assert SameFiles(r.changed, c) <==> c.changedFiles == Paths(r.changed);
  }

  function Prune(cs: seq<CandidatePatch>, capacity: nat): seq<CandidatePatch> {
    Take(Sort(cs, RanksBefore), capacity)
  }

  function Record(isSource: string -> bool, capacity: nat, b: Bank, r: Recording): Bank {
    match EffectOf(isSource, b, r)
    case Ignored => b
    case Rescored(i) =>
      b.(candidates := Prune(b.candidates[i := Corroborated(b.candidates[i], r)], capacity))
    case Pushed(c) =>
      Bank(Prune(b.candidates + [c], capacity), SaturatingInc(b.nextId))
  }

  /** A run of recordings that starts with the bank `b`. */
  function Run(isSource: string -> bool, capacity: nat, b: Bank, rs: seq<Recording>): Bank {
    if rs == [] then b else Record(isSource, capacity, Run(isSource, capacity, b, rs[..|rs| - 1]), rs[|rs| - 1])
  }

  /** The candidate that a rescoring puts in the place of the corroborated one. */
  function Rescoring(b: Bank, i: nat, r: Recording): CandidatePatch
    requires i < |b.candidates| && Corroborates(r, b.candidates[i])
  {
    Corroborated(b.candidates[i], r)
  }

  /** What has arrived after a recording; a rescored candidate leaves and arrives anew. */
  function NextArrivals(isSource: string -> bool, b: Bank, r: Recording, arrived: seq<CandidatePatch>): seq<CandidatePatch> {
    match EffectOf(isSource, b, r)
    case Ignored => arrived
    case Rescored(i) => Remove(arrived, b.candidates[i]) + [Rescoring(b, i, r)]
    case Pushed(c) => arrived + [c]
  }

  /** Everything the bank started with and everything that arrived since, in order. */
  function Arrivals(isSource: string -> bool, capacity: nat, b: Bank, rs: seq<Recording>): seq<CandidatePatch> {
    if rs == [] then b.candidates
    else
      var before := rs[..|rs| - 1];
      NextArrivals(isSource, Run(isSource, capacity, b, before), rs[|rs| - 1], Arrivals(isSource, capacity, b, before))
  }

  /** Everything that the run pushed, in order. */
  function EverPushed(isSource: string -> bool, capacity: nat, b: Bank, rs: seq<Recording>): seq<CandidatePatch> {
    if rs == [] then []
    else
      var before := rs[..|rs| - 1];
      match EffectOf(isSource, Run(isSource, capacity, b, before), rs[|rs| - 1])
      case Pushed(c) => EverPushed(isSource, capacity, b, before) + [c]
      case _ => EverPushed(isSource, capacity, b, before)
  }

  ghost predicate NeverRescores(isSource: string -> bool, capacity: nat, b: Bank, rs: seq<Recording>) {
    forall n :: 0 <= n < |rs| ==> !EffectOf(isSource, Run(isSource, capacity, b, rs[..n]), rs[n]).Rescored?
  }

  /** A rescored candidate ranks before everything dropped so far, and ties with no kept one behind
      its place. */
  ghost predicate RescoringSettles(isSource: string -> bool, capacity: nat, b: Bank, r: Recording,
                                   arrived: seq<CandidatePatch>)
  {
    var effect := EffectOf(isSource, b, r);
    effect.Rescored? ==>
      Settles(Sort(arrived, RanksBefore), capacity, effect.index, Rescoring(b, effect.index, r), RanksBefore)
  }

  /** Every rescoring of the run settles. */
  ghost predicate AlwaysSettles(isSource: string -> bool, capacity: nat, b: Bank, rs: seq<Recording>) {
    rs != [] ==>
      var before := rs[..|rs| - 1];
      && AlwaysSettles(isSource, capacity, b, before)
      && RescoringSettles(isSource, capacity, Run(isSource, capacity, b, before), rs[|rs| - 1],
                          Arrivals(isSource, capacity, b, before))
  }

  ghost predicate IsTopK(isSource: string -> bool, capacity: nat, b: Bank, rs: seq<Recording>) {
    Run(isSource, capacity, b, rs).candidates == Take(Sort(Arrivals(isSource, capacity, b, rs), RanksBefore), capacity)
  }

  /** As long as every rescoring settles, online pruning is offline top-k: after every recording
      the bank is the first `capacity` entries of the stable sort of all arrivals. */
  lemma {:induction false} BankIsTopK(isSource: string -> bool, capacity: nat, b: Bank, rs: seq<Recording>)
    requires AlwaysSettles(isSource, capacity, b, rs)
    requires Sorted(b.candidates, RanksBefore) && |b.candidates| <= capacity
    ensures IsTopK(isSource, capacity, b, rs)
  {
    RankIsPreorder();
    if rs == [] {
      SortOfSorted(b.candidates, RanksBefore);
    } else {
      var before := rs[..|rs| - 1];
      BankIsTopK(isSource, capacity, b, before);
      RecordIsTopK(isSource, capacity, Run(isSource, capacity, b, before), rs[|rs| - 1],
                   Arrivals(isSource, capacity, b, before));
    }
  }

  lemma RecordIsTopK(isSource: string -> bool, capacity: nat, b: Bank, r: Recording, arrived: seq<CandidatePatch>)
    requires b.candidates == Take(Sort(arrived, RanksBefore), capacity)
    requires RescoringSettles(isSource, capacity, b, r, arrived)
    ensures Record(isSource, capacity, b, r).candidates ==
            Take(Sort(NextArrivals(isSource, b, r, arrived), RanksBefore), capacity)
  {
    RankIsPreorder();
    match EffectOf(isSource, b, r)
    case Ignored =>
    case Rescored(i) =>
      EffectExactly(isSource, b, r);
      ReplacedTopK(arrived, capacity, i, Rescoring(b, i, r), RanksBefore);
    case Pushed(c) => OnlineTopK(arrived, c, capacity, RanksBefore);
  }

  /** A rescoring to a higher score settles. */
  lemma RaisingSettles(isSource: string -> bool, capacity: nat, b: Bank, r: Recording, arrived: seq<CandidatePatch>)
    requires b.candidates == Take(Sort(arrived, RanksBefore), capacity)
    requires var effect := EffectOf(isSource, b, r);
      effect.Rescored? ==> Rescoring(b, effect.index, r).score > b.candidates[effect.index].score
    ensures RescoringSettles(isSource, capacity, b, r, arrived)
  {
    var effect := EffectOf(isSource, b, r);
    if effect.Rescored? {
      RankIsPreorder();
      SortIsStable(arrived, RanksBefore);
      RaisedSettles(Sort(arrived, RanksBefore), capacity, effect.index, Rescoring(b, effect.index, r), RanksBefore);
    }
  }

  /** Without rescoring the arrivals are what the bank started with and everything pushed; from
      the empty bank, everything ever pushed. */
  lemma {:induction false} ArrivalsArePushes(isSource: string -> bool, capacity: nat, b: Bank, rs: seq<Recording>)
    requires NeverRescores(isSource, capacity, b, rs)
    ensures Arrivals(isSource, capacity, b, rs) == b.candidates + EverPushed(isSource, capacity, b, rs)
    ensures AlwaysSettles(isSource, capacity, b, rs)
  {
    if rs == [] {
      assert b.candidates + [] == b.candidates;
    } else {
      var n := |rs| - 1;
      var before := rs[..n];
      forall m | 0 <= m < n ensures !EffectOf(isSource, Run(isSource, capacity, b, before[..m]), before[m]).Rescored? {
        assert before[..m] == rs[..m];
      }
      ArrivalsArePushes(isSource, capacity, b, before);
      var effect := EffectOf(isSource, Run(isSource, capacity, b, before), rs[n]);
      if effect.Pushed? {
        Regroup(b.candidates, EverPushed(isSource, capacity, b, before), [effect.candidate]);
      }
    }
  }

  // ----- When the bank is exactly the top-k -----

  /** After every recording of the run the bank is the top-k of the arrivals. */
  ghost predicate AlwaysTopK(isSource: string -> bool, capacity: nat, b: Bank, rs: seq<Recording>) {
    (rs != [] ==> AlwaysTopK(isSource, capacity, b, rs[..|rs| - 1])) && IsTopK(isSource, capacity, b, rs)
  }

  /** Ids below `nextId`, each of them once. */
  ghost predicate OwnIds(cs: seq<CandidatePatch>, nextId: nat) {
    (forall c :: c in cs ==> c.id < nextId) && DistinctIds(multiset(cs))
  }

  lemma RemoveKeepsOwnIds(cs: seq<CandidatePatch>, c: CandidatePatch, d: CandidatePatch, nextId: nat)
    requires OwnIds(cs, nextId) && c in cs && d.id == c.id
    ensures d !in Remove(cs, c) && OwnIds(Remove(cs, c) + [d], nextId)
  {
    var rest := Remove(cs, c);
    RemoveTakesOne(cs, c);
    assert multiset(cs)[c] == 1 && multiset(rest)[c] == 0;
    forall x | x in rest ensures x in cs && x.id != c.id {
      assert x in multiset(rest) && x in multiset(cs);
    }
    assert multiset(rest + [d]) == multiset(rest) + multiset{d};
    assert multiset(rest) <= multiset(cs);
  }

  lemma PushKeepsOwnIds(cs: seq<CandidatePatch>, c: CandidatePatch, nextId: nat)
    requires OwnIds(cs, nextId) && c.id == nextId
    ensures OwnIds(cs + [c], nextId + 1)
  {
    PushKeepsIds(cs, c);
  }

  lemma NextOwnIds(isSource: string -> bool, capacity: nat, b: Bank, r: Recording, arrived: seq<CandidatePatch>)
    requires b.candidates == Take(Sort(arrived, RanksBefore), capacity) && OwnIds(arrived, b.nextId)
    requires b.nextId < U32_MAX
    ensures OwnIds(NextArrivals(isSource, b, r, arrived), Record(isSource, capacity, b, r).nextId)
  {
    match EffectOf(isSource, b, r)
    case Ignored =>
    case Rescored(i) =>
      KeptHasArrived(b.candidates, capacity, i, arrived);
      RemoveKeepsOwnIds(arrived, b.candidates[i], Rescoring(b, i, r), b.nextId);
    case Pushed(c) => PushKeepsOwnIds(arrived, c, b.nextId);
  }

  lemma KeptHasArrived(kept: seq<CandidatePatch>, capacity: nat, i: nat, arrived: seq<CandidatePatch>)
    requires kept == Take(Sort(arrived, RanksBefore), capacity) && i < |kept|
    ensures kept[i] in arrived
  {
    RankIsPreorder();
    SortKeepsMembers(arrived, kept[i], RanksBefore);
  }

  /** One recording, while ids are distinct: the bank stays the top-k exactly if it settles. */
  lemma RecordIsTopKExactlyWhen(isSource: string -> bool, capacity: nat, b: Bank, r: Recording,
                                arrived: seq<CandidatePatch>)
    requires b.candidates == Take(Sort(arrived, RanksBefore), capacity) && OwnIds(arrived, b.nextId)
    ensures Record(isSource, capacity, b, r).candidates ==
            Take(Sort(NextArrivals(isSource, b, r, arrived), RanksBefore), capacity) <==>
              RescoringSettles(isSource, capacity, b, r, arrived)
  {
    RankIsPreorder();
    match EffectOf(isSource, b, r)
    case Ignored =>
    case Rescored(i) =>
      EffectExactly(isSource, b, r);
      KeptHasArrived(b.candidates, capacity, i, arrived);
      RemoveKeepsOwnIds(arrived, b.candidates[i], Rescoring(b, i, r), b.nextId);
      ReplacedTopKExactlyWhen(arrived, capacity, i, Rescoring(b, i, r), RanksBefore);
    case Pushed(c) => OnlineTopK(arrived, c, capacity, RanksBefore);
  }

  /** In every run whose id counter does not saturate, the bank is always the top-k of the arrivals
      exactly if every rescoring settles. */
  lemma {:induction false} TopKExactlyWhen(isSource: string -> bool, capacity: nat, b: Bank, rs: seq<Recording>)
    requires Sorted(b.candidates, RanksBefore) && |b.candidates| <= capacity && OwnIds(b.candidates, b.nextId)
    requires Run(isSource, capacity, b, rs).nextId < U32_MAX
    ensures AlwaysTopK(isSource, capacity, b, rs) <==> AlwaysSettles(isSource, capacity, b, rs)
    ensures AlwaysTopK(isSource, capacity, b, rs) ==>
              OwnIds(Arrivals(isSource, capacity, b, rs), Run(isSource, capacity, b, rs).nextId)
  {
    if rs == [] {
      RankIsPreorder();
      SortOfSorted(b.candidates, RanksBefore);
    } else {
      var before := rs[..|rs| - 1];
      TopKExactlyWhen(isSource, capacity, b, before);
      if AlwaysTopK(isSource, capacity, b, before) {
        var bank, arrived := Run(isSource, capacity, b, before), Arrivals(isSource, capacity, b, before);
        RecordIsTopKExactlyWhen(isSource, capacity, bank, rs[|rs| - 1], arrived);
        NextOwnIds(isSource, capacity, bank, rs[|rs| - 1], arrived);
      }
    }
  }

  // ----- When the best are kept -----

  /** Everything that pruning dropped in a run. */
  ghost function Dropped(isSource: string -> bool, capacity: nat, b: Bank, rs: seq<Recording>): multiset<CandidatePatch> {
    if rs == [] then multiset{}
    else
      var before := rs[..|rs| - 1];
      Dropped(isSource, capacity, b, before)
      + NewlyDropped(isSource, capacity, Run(isSource, capacity, b, before), rs[|rs| - 1])
  }

  ghost function NewlyDropped(isSource: string -> bool, capacity: nat, b: Bank, r: Recording): multiset<CandidatePatch> {
    match EffectOf(isSource, b, r)
    case Pushed(c) => multiset(b.candidates + [c]) - multiset(Prune(b.candidates + [c], capacity))
    case _ => multiset{}
  }

  /** No dropped candidate ranks before a kept one. */
  ghost predicate KeepsBest(kept: seq<CandidatePatch>, dropped: multiset<CandidatePatch>) {
    forall x, y :: x in kept && y in dropped ==> RanksBefore(x, y)
  }

  ghost predicate StaysAhead(isSource: string -> bool, b: Bank, r: Recording, dropped: multiset<CandidatePatch>) {
    var effect := EffectOf(isSource, b, r);
    effect.Rescored? ==> forall y :: y in dropped ==> RanksBefore(Rescoring(b, effect.index, r), y)
  }

  /** A bank that has dropped something is full. */
  ghost predicate FullOnceDropped(capacity: nat, kept: seq<CandidatePatch>, dropped: multiset<CandidatePatch>) {
    |kept| <= capacity && (dropped != multiset{} ==> |kept| == capacity)
  }

  lemma PruneParts(cs: seq<CandidatePatch>, capacity: nat) returns (cut: seq<CandidatePatch>)
    ensures multiset(cs) == multiset(Prune(cs, capacity)) + multiset(cut)
    ensures |cs| == |Prune(cs, capacity)| + |cut| && (cut != [] ==> |Prune(cs, capacity)| == capacity)
    ensures |cs| <= capacity ==> cut == []
    ensures forall x, y :: x in Prune(cs, capacity) && y in cut ==> RanksBefore(x, y)
  {
    RankIsPreorder();
    SortIsStable(cs, RanksBefore);
    var all, kept := Sort(cs, RanksBefore), Prune(cs, capacity);
    cut := all[|kept|..];
    assert all == kept + cut;
    assert |multiset(all)| == |multiset(cs)|;
    SortedParts(kept, cut);
  }

  lemma SortedParts(kept: seq<CandidatePatch>, cut: seq<CandidatePatch>)
    requires Sorted(kept + cut, RanksBefore)
    ensures forall x, y :: x in kept && y in cut ==> RanksBefore(x, y)
  {
    var all := kept + cut;
    forall x, y | x in kept && y in cut ensures RanksBefore(x, y) {
      var i :| 0 <= i < |kept| && kept[i] == x;
      var j :| 0 <= j < |cut| && cut[j] == y;
      assert all[i] == x && all[|kept| + j] == y;
    }
  }

  /** A kept newcomer ranks before what it displaces, and so before everything dropped. */
  lemma NewcomerIsAhead(cs: seq<CandidatePatch>, c: CandidatePatch, capacity: nat, x: CandidatePatch, y: CandidatePatch)
    requires |cs| == capacity && x in Prune(cs + [c], capacity) && forall z :: z in cs ==> RanksBefore(z, y)
    ensures RanksBefore(x, y)
  {
    var kept := Prune(cs + [c], capacity);
    var cut := PruneParts(cs + [c], capacity);
    assert |cut| == 1 && cut[0] in cut;
    assert multiset(cs + [c]) == multiset(cs) + multiset{c} && cut == [cut[0]];
    assert multiset(kept) + multiset{cut[0]} == multiset(cs) + multiset{c};
    if x !in cs {
      ExchangedOne(multiset(kept), multiset(cs), cut[0], c, x);
      assert cut[0] in cs;
      assert RanksBefore(x, cut[0]) && RanksBefore(cut[0], y);
    }
  }

  lemma ExchangedOne<T>(kept: multiset<T>, former: multiset<T>, cut: T, c: T, x: T)
    requires kept + multiset{cut} == former + multiset{c} && x in kept && x !in former
    ensures cut in former
  {
    assert (kept + multiset{cut})[x] == (former + multiset{c})[x];
    assert (kept + multiset{cut})[cut] == (former + multiset{c})[cut];
  }

  lemma PushKeepsBest(cs: seq<CandidatePatch>, c: CandidatePatch, capacity: nat, dropped: multiset<CandidatePatch>)
    requires KeepsBest(cs, dropped) && FullOnceDropped(capacity, cs, dropped)
    ensures var kept := Prune(cs + [c], capacity);
      var all := dropped + (multiset(cs + [c]) - multiset(kept));
      KeepsBest(kept, all) && FullOnceDropped(capacity, kept, all)
  {
    var kept := Prune(cs + [c], capacity);
    var cut := PruneParts(cs + [c], capacity);
    assert multiset(cs + [c]) - multiset(kept) == multiset(cut);
    forall x, y | x in kept && y in dropped + multiset(cut) ensures RanksBefore(x, y) {
      if y in dropped {
        NewcomerIsAhead(cs, c, capacity, x, y);
      }
    }
  }

  /** Rescoring keeps the best exactly if the rescored candidate stays ahead of all dropped. */
  lemma RescoreKeepsBest(cs: seq<CandidatePatch>, i: nat, c: CandidatePatch, capacity: nat, dropped: multiset<CandidatePatch>)
    requires KeepsBest(cs, dropped) && FullOnceDropped(capacity, cs, dropped) && i < |cs|
    ensures FullOnceDropped(capacity, Prune(cs[i := c], capacity), dropped)
    ensures KeepsBest(Prune(cs[i := c], capacity), dropped) <==> forall y :: y in dropped ==> RanksBefore(c, y)
  {
    var kept := Prune(cs[i := c], capacity);
    var cut := PruneParts(cs[i := c], capacity);
    assert multiset(kept) == multiset(cs[i := c]);
    assert cs[i := c][i] == c && c in multiset(kept);
    forall x | x in kept ensures x == c || x in cs {
      assert x in multiset(kept);
    }
  }

  /** After every recording of the run the best are kept. */
  ghost predicate AlwaysKeepsBest(isSource: string -> bool, capacity: nat, b: Bank, rs: seq<Recording>) {
    && (rs != [] ==> AlwaysKeepsBest(isSource, capacity, b, rs[..|rs| - 1]))
    && KeepsBest(Run(isSource, capacity, b, rs).candidates, Dropped(isSource, capacity, b, rs))
  }

  /** No rescoring of the run puts a candidate behind one that was dropped before. */
  ghost predicate AlwaysStaysAhead(isSource: string -> bool, capacity: nat, b: Bank, rs: seq<Recording>) {
    rs != [] ==>
      var before := rs[..|rs| - 1];
      && AlwaysStaysAhead(isSource, capacity, b, before)
      && StaysAhead(isSource, Run(isSource, capacity, b, before), rs[|rs| - 1], Dropped(isSource, capacity, b, before))
  }

  lemma RecordKeepsBest(isSource: string -> bool, capacity: nat, b: Bank, r: Recording, dropped: multiset<CandidatePatch>)
    requires KeepsBest(b.candidates, dropped) && FullOnceDropped(capacity, b.candidates, dropped)
    ensures var next, all := Record(isSource, capacity, b, r), dropped + NewlyDropped(isSource, capacity, b, r);
      && FullOnceDropped(capacity, next.candidates, all)
      && (KeepsBest(next.candidates, all) <==> StaysAhead(isSource, b, r, dropped))
  {
    match EffectOf(isSource, b, r)
    case Ignored =>
    case Rescored(i) => RescoreKeepsBest(b.candidates, i, Rescoring(b, i, r), capacity, dropped);
    case Pushed(c) => PushKeepsBest(b.candidates, c, capacity, dropped);
  }

  /** Whatever the rescorings: at every point of a run the bank holds the best of all that arrived
      exactly if no rescored candidate falls behind one that was dropped before. */
  lemma {:induction false} BestKeptExactlyWhen(isSource: string -> bool, capacity: nat, b: Bank, rs: seq<Recording>)
    requires |b.candidates| <= capacity
    ensures AlwaysKeepsBest(isSource, capacity, b, rs) <==> AlwaysStaysAhead(isSource, capacity, b, rs)
    ensures AlwaysKeepsBest(isSource, capacity, b, rs) ==>
              FullOnceDropped(capacity, Run(isSource, capacity, b, rs).candidates, Dropped(isSource, capacity, b, rs))
  {
    if rs != [] {
      var before := rs[..|rs| - 1];
      BestKeptExactlyWhen(isSource, capacity, b, before);
      if AlwaysKeepsBest(isSource, capacity, b, before) {
        RecordKeepsBest(isSource, capacity, Run(isSource, capacity, b, before), rs[|rs| - 1],
                        Dropped(isSource, capacity, b, before));
      }
    }
  }

  /** Nothing is lost without being counted: what arrived is kept or was dropped. */
  lemma {:induction false} KeptOrDropped(isSource: string -> bool, capacity: nat, b: Bank, rs: seq<Recording>)
    requires |b.candidates| <= capacity
    ensures |Run(isSource, capacity, b, rs).candidates| <= capacity
    ensures multiset(Arrivals(isSource, capacity, b, rs)) ==
            multiset(Run(isSource, capacity, b, rs).candidates) + Dropped(isSource, capacity, b, rs)
  {
    if rs != [] {
      var before := rs[..|rs| - 1];
      KeptOrDropped(isSource, capacity, b, before);
      RecordConserves(isSource, capacity, Run(isSource, capacity, b, before), rs[|rs| - 1],
                      Arrivals(isSource, capacity, b, before), Dropped(isSource, capacity, b, before));
    }
  }

  lemma RecordConserves(isSource: string -> bool, capacity: nat, b: Bank, r: Recording, arrived: seq<CandidatePatch>,
                        dropped: multiset<CandidatePatch>)
    requires |b.candidates| <= capacity && multiset(arrived) == multiset(b.candidates) + dropped
    ensures var kept := Record(isSource, capacity, b, r).candidates;
      && |kept| <= capacity
      && multiset(NextArrivals(isSource, b, r, arrived)) ==
         multiset(kept) + (dropped + NewlyDropped(isSource, capacity, b, r))
  {
    match EffectOf(isSource, b, r)
    case Ignored =>
    case Rescored(i) => RescoreConserves(capacity, b.candidates, i, Rescoring(b, i, r), arrived, dropped);
    case Pushed(c) => PushConserves(capacity, b.candidates, c, arrived, dropped);
  }

  lemma PushConserves(capacity: nat, cs: seq<CandidatePatch>, c: CandidatePatch, arrived: seq<CandidatePatch>,
                      dropped: multiset<CandidatePatch>)
    requires |cs| <= capacity && multiset(arrived) == multiset(cs) + dropped
    ensures var kept := Prune(cs + [c], capacity);
      && |kept| <= capacity
      && multiset(arrived + [c]) == multiset(kept) + (dropped + (multiset(cs + [c]) - multiset(kept)))
  {
    var kept := multiset(Prune(cs + [c], capacity));
    var cut := PruneParts(cs + [c], capacity);
    assert multiset(arrived + [c]) == multiset(arrived) + multiset{c};
    assert multiset(cs + [c]) == multiset(cs) + multiset{c};
    assert multiset(cs + [c]) - kept == multiset(cut);
  }

  lemma RescoreConserves(capacity: nat, cs: seq<CandidatePatch>, i: nat, c: CandidatePatch, arrived: seq<CandidatePatch>,
                         dropped: multiset<CandidatePatch>)
    requires i < |cs| <= capacity && multiset(arrived) == multiset(cs) + dropped
    ensures |Prune(cs[i := c], capacity)| <= capacity
    ensures multiset(Remove(arrived, cs[i]) + [c]) == multiset(Prune(cs[i := c], capacity)) + dropped
  {
    var cut := PruneParts(cs[i := c], capacity);
    assert cs[i] in multiset(arrived);
    RemoveTakesOne(arrived, cs[i]);
    assert multiset(cs[i := c]) == multiset(cs) - multiset{cs[i]} + multiset{c};
    assert multiset(Remove(arrived, cs[i]) + [c]) == multiset(Remove(arrived, cs[i])) + multiset{c};
    Exchange(multiset(Remove(arrived, cs[i])), multiset(cs), dropped, cs[i], c);
  }

  lemma Exchange<T>(rest: multiset<T>, kept: multiset<T>, dropped: multiset<T>, x: T, y: T)
    requires rest + multiset{x} == kept + dropped && x in kept
    ensures rest + multiset{y} == kept - multiset{x} + multiset{y} + dropped
  {
    assert rest == kept - multiset{x} + dropped by {
      forall t ensures rest[t] == (kept - multiset{x} + dropped)[t] {
        assert (rest + multiset{x})[t] == (kept + dropped)[t];
      }
    }
  }

  // ----- No candidate twice -----

  /** Passes differ in files or scope, feedback-only passes in files, failures in files or signature. */
  ghost predicate Apart(c: CandidatePatch, d: CandidatePatch) {
    && (c.positiveFeedback && d.positiveFeedback ==> c.changedFiles != d.changedFiles || c.scopeDesc != d.scopeDesc)
    && (IsFeedbackOnly(c) && IsFeedbackOnly(d) ==> c.changedFiles != d.changedFiles)
    && (!c.positiveFeedback && !d.positiveFeedback ==>
          c.changedFiles != d.changedFiles || c.failureSignature != d.failureSignature)
  }

  predicate IsFeedbackOnly(c: CandidatePatch) {
    c.positiveFeedback && c.feedbackOnly
  }

  ghost predicate AllApart(cs: seq<CandidatePatch>) {
    forall i, j :: 0 <= i < |cs| && 0 <= j < |cs| && i != j ==> Apart(cs[i], cs[j])
  }

  /** Sorting and cutting keep elements apart. */
  lemma PruneKeepsApart(cs: seq<CandidatePatch>, capacity: nat)
    requires AllApart(cs)
    ensures AllApart(Prune(cs, capacity))
  {
    RankIsPreorder();
    SortIsStable(cs, RanksBefore);
    ApartIsOrderless(cs, Sort(cs, RanksBefore));
  }

  lemma ApartIsOrderless(cs: seq<CandidatePatch>, ds: seq<CandidatePatch>)
    requires AllApart(cs) && multiset(cs) == multiset(ds)
    ensures AllApart(ds)
  {
    forall i, j | 0 <= i < |ds| && 0 <= j < |ds| && i != j ensures Apart(ds[i], ds[j]) {
      assert ds[i] in multiset(ds) && ds[j] in multiset(ds);
      var k :| 0 <= k < |cs| && cs[k] == ds[i];
      if ds[i] == ds[j] {
        TwiceIn(ds, i, j);
        var l := OtherPlace(cs, k);
      } else {
        var l :| 0 <= l < |cs| && cs[l] == ds[j];
      }
    }
  }

  lemma TwiceIn(s: seq<CandidatePatch>, i: nat, j: nat)
    requires i < |s| && j < |s| && i != j && s[i] == s[j]
    ensures multiset(s)[s[i]] >= 2
  {
    var a, b := if i < j then i else j, if i < j then j else i;
    assert s == s[..a] + [s[a]] + s[a + 1..b] + [s[b]] + s[b + 1..];
  }

  lemma OtherPlace(s: seq<CandidatePatch>, k: nat) returns (l: nat)
    requires k < |s| && multiset(s)[s[k]] >= 2
    ensures l < |s| && l != k && s[l] == s[k]
  {
    var rest := s[..k] + s[k + 1..];
    assert s == s[..k] + [s[k]] + s[k + 1..];
    assert s[k] in multiset(rest);
    var i :| 0 <= i < |rest| && rest[i] == s[k];
    l := if i < k then i else i + 1;
  }

  lemma RecordKeepsApart(isSource: string -> bool, capacity: nat, b: Bank, r: Recording)
    requires AllApart(b.candidates)
    ensures AllApart(Record(isSource, capacity, b, r).candidates)
  {
    EffectExactly(isSource, b, r);
    match EffectOf(isSource, b, r)
    case Ignored =>
    case Rescored(i) =>
      var next := b.candidates[i := Rescoring(b, i, r)];
      assert forall j :: 0 <= j < |next| && j != i ==> next[j] == b.candidates[j];
      PruneKeepsApart(next, capacity);
    case Pushed(c) =>
      var next := b.candidates + [c];
      forall j | 0 <= j < |b.candidates| ensures Apart(c, b.candidates[j]) && Apart(b.candidates[j], c) {
        assert b.candidates[j] in b.candidates;
      }
      PruneKeepsApart(next, capacity);
  }

  /** In every run the bank never holds the same result twice. */
  lemma {:induction false} RunKeepsApart(isSource: string -> bool, capacity: nat, rs: seq<Recording>)
    ensures AllApart(Run(isSource, capacity, EMPTY, rs).candidates)
  {
    if rs != [] {
      var before := rs[..|rs| - 1];
      RunKeepsApart(isSource, capacity, before);
      RecordKeepsApart(isSource, capacity, Run(isSource, capacity, EMPTY, before), rs[|rs| - 1]);
    }
  }

  /** What a new candidate is. */
  lemma NewCandidateMeans(r: Recording, id: nat)
    ensures var c := NewCandidate(r, id);
      && c.id == id && c.snapshot == r.snapshot && c.changedLines == TotalLines(r.changed) && c.scopeDesc == r.scopeDesc
      && |c.changedFiles| == |r.changed| && (forall k :: 0 <= k < |r.changed| ==> c.changedFiles[k] == r.changed[k].path)
      && (c.positiveFeedback <==> r.PassedRun?) && (c.feedbackOnly <==> r.PassedRun? && r.feedbackOnly)
      && c.validationHits == (if r.PassedRun? then 1 else 0)
      && c.score == (match r
                     case FailedRun(changed, signals, _, sameFailures, _) => FailedScore(changed, sameFailures, signals)
                     case PassedRun(changed, _, _, feedbackOnly, _) => PassScore(changed, feedbackOnly, 1))
  {
  }

  /** Corroboration adds one validation and scores the change anew; the rest stays. */
  lemma CorroboratedMeans(c: CandidatePatch, r: Recording)
    requires r.PassedRun?
    ensures var d := Corroborated(c, r);
      && d == c.(validationHits := d.validationHits, score := d.score, failureSignature := d.failureSignature)
      && (c.validationHits < U32_MAX ==> d.validationHits == c.validationHits + 1)
      && d.score == PassScore(r.changed, true, d.validationHits)
  {
  }

  /** What a pass scores: 140 if trusted, otherwise 45 and 8 for each of the first three further
      validations; less 10 for every further file and 1 for every line beyond eight. */
  lemma PassScoreMeans(changed: seq<ChangedFile>, hits: nat)
    requires changed != []
    ensures PassScore(changed, false, hits) == 150 - 10 * |changed| - SaturatingSub(TotalLines(changed), 8)
    ensures PassScore(changed, true, 1) == 55 - 10 * |changed| - SaturatingSub(TotalLines(changed), 8)
    ensures 1 <= hits <= 3 ==> PassScore(changed, true, hits + 1) == PassScore(changed, true, hits) + 8
    ensures hits >= 4 ==> PassScore(changed, true, hits) == PassScore(changed, true, 4)
  {
  }

  // ----- A run that loses the best -----

  predicate AnyPath(path: string) {
    true
  }

  function FeedbackPass(path: string, lines: nat, scope: string): Recording {
    PassedRun([ChangedFile(path, lines, 0)], CLEAN, scope, true, "")
  }

  const SMALL := FeedbackPass("a", 8, "unit")
  const LARGER := FeedbackPass("b", 9, "unit")
  const GROWN := FeedbackPass("a", 100, "integration")

  lemma OneFile(path: string, lines: nat, scope: string, id: nat)
    requires lines > 0
    ensures var r := FeedbackPass(path, lines, scope);
      && Paths(r.changed) == [path] && TotalLines(r.changed) == lines && Eligible(AnyPath, r)
      && NewCandidate(r, id).score == 45 - SaturatingSub(lines, 8)
  {
    var changed := [ChangedFile(path, lines, 0)];
    assert changed[1..] == [] && TotalLines(changed) == lines;
  }

  lemma FirstPush(c: CandidatePatch)
    requires c == NewCandidate(SMALL, 1)
    ensures Record(AnyPath, 1, EMPTY, SMALL) == Bank([c], 2)
  {
    OneFile("a", 8, "unit", 1);
    assert EffectOf(AnyPath, EMPTY, SMALL) == Pushed(c);
    assert [] + [c] == [c] && [c][..0] == [];
    assert Sort([c], RanksBefore) == [c];
  }

  lemma SecondPush(c: CandidatePatch, d: CandidatePatch)
    requires c == NewCandidate(SMALL, 1) && d == NewCandidate(LARGER, 2)
    ensures Record(AnyPath, 1, Bank([c], 2), LARGER) == Bank([c], 3)
    ensures NewlyDropped(AnyPath, 1, Bank([c], 2), LARGER) == multiset{d}
  {
    OneFile("a", 8, "unit", 1);
    OneFile("b", 9, "unit", 2);
    assert c.changedFiles == ["a"] && ["a"][0] != ["b"][0];
    assert EffectOf(AnyPath, Bank([c], 2), LARGER) == Pushed(d);
    RankIsPreorder();
    assert [c] + [d] == [c, d];
    SortOfSorted([c, d], RanksBefore);
    assert multiset([c, d]) - multiset([c]) == multiset{d};
  }

  lemma ThenRescored(c: CandidatePatch, e: CandidatePatch)
    requires c == NewCandidate(SMALL, 1) && e == Corroborated(c, GROWN)
    ensures Record(AnyPath, 1, Bank([c], 3), GROWN) == Bank([e], 3)
    ensures NewlyDropped(AnyPath, 1, Bank([c], 3), GROWN) == multiset{}
  {
    OneFile("a", 8, "unit", 1);
    OneFile("a", 100, "integration", 1);
    assert c.scopeDesc == "unit" && "unit"[0] != "integration"[0];
    assert EffectOf(AnyPath, Bank([c], 3), GROWN) == Rescored(0);
    assert [c][0 := e] == [e] && [e][..0] == [];
    assert Sort([e], RanksBefore) == [e];
  }

  lemma RunOfTwo(b: Bank, x: Recording, y: Recording)
    ensures var b1 := Record(AnyPath, 1, b, x);
      && Run(AnyPath, 1, b, [x, y]) == Record(AnyPath, 1, b1, y)
      && Dropped(AnyPath, 1, b, [x, y]) == NewlyDropped(AnyPath, 1, b, x) + NewlyDropped(AnyPath, 1, b1, y)
  {
    assert [x, y][..1] == [x] && [x][..0] == [];
    assert Run(AnyPath, 1, b, [x]) == Record(AnyPath, 1, b, x);
    assert Dropped(AnyPath, 1, b, [x]) == NewlyDropped(AnyPath, 1, b, x);
  }

  /** A bank of capacity 1 that holds a small feedback-only pass keeps it over a slightly larger
      one, and still when a corroborating run with many changed lines puts it far behind. */
  lemma RescoringCanLoseTheBest(kept: CandidatePatch, lost: CandidatePatch)
    requires kept == Corroborated(NewCandidate(SMALL, 1), GROWN) && lost == NewCandidate(LARGER, 2)
    ensures Run(AnyPath, 1, Record(AnyPath, 1, EMPTY, SMALL), [LARGER, GROWN]) == Bank([kept], 3)
    ensures Dropped(AnyPath, 1, Record(AnyPath, 1, EMPTY, SMALL), [LARGER, GROWN]) == multiset{lost}
    ensures kept.score == -39 && lost.score == 44 && !RanksBefore(kept, lost)
  {
    var c := NewCandidate(SMALL, 1);
    FirstPush(c);
    SecondPush(c, lost);
    ThenRescored(c, kept);
    RunOfTwo(Bank([c], 2), LARGER, GROWN);
    OneFile("b", 9, "unit", 2);
    OneFile("a", 100, "integration", 1);
  }

  // ----- What every run keeps, rescoring included -----

  /** Ids are handed out in order, so they are distinct until the counter saturates. */
  ghost predicate WellKept(capacity: nat, b: Bank) {
    && |b.candidates| <= capacity
    && Sorted(b.candidates, RanksBefore)
    && (b.nextId < U32_MAX ==>
          (forall c :: c in b.candidates ==> c.id < b.nextId) && DistinctIds(multiset(b.candidates)))
  }

  /** Scores never rise towards the end, and at equal scores sizes never fall. */
  ghost predicate BestFirst(cs: seq<CandidatePatch>) {
    forall i, j :: 0 <= i < j < |cs| ==>
      cs[i].score >= cs[j].score && (cs[i].score == cs[j].score ==> cs[i].changedLines <= cs[j].changedLines)
  }

  ghost predicate DistinctIds(cs: multiset<CandidatePatch>) {
    && (forall c :: cs[c] <= 1)
    && (forall c, d :: c in cs && d in cs && c.id == d.id ==> c == d)
  }

  lemma PruneKeeps(cs: seq<CandidatePatch>, capacity: nat)
    ensures |Prune(cs, capacity)| <= capacity && Sorted(Prune(cs, capacity), RanksBefore)
    ensures multiset(Prune(cs, capacity)) <= multiset(cs)
    ensures DistinctIds(multiset(cs)) ==> DistinctIds(multiset(Prune(cs, capacity)))
  {
    RankIsPreorder();
    SortIsStable(cs, RanksBefore);
    var all := Sort(cs, RanksBefore);
    if |all| > capacity {
      assert all == all[..capacity] + all[capacity..];
    }
  }

  lemma RescoringKeepsIds(cs: seq<CandidatePatch>, i: nat, r: Recording)
    requires i < |cs| && r.PassedRun? && DistinctIds(multiset(cs))
    ensures DistinctIds(multiset(cs[i := Corroborated(cs[i], r)]))
  {
    var c' := Corroborated(cs[i], r);
    var cs' := cs[i := c'];
    assert multiset(cs') == multiset(cs) - multiset{cs[i]} + multiset{c'};
    assert c' in cs ==> c' == cs[i];
  }

  /** Any part of the old candidates and of some new ones below the next id. */
  lemma PrunedIsWellKept(capacity: nat, cs: seq<CandidatePatch>, nextId: nat)
    requires nextId < U32_MAX ==> (forall c :: c in cs ==> c.id < nextId) && DistinctIds(multiset(cs))
    ensures WellKept(capacity, Bank(Prune(cs, capacity), nextId))
  {
    PruneKeeps(cs, capacity);
    var kept := Prune(cs, capacity);
    forall c | c in kept ensures c in cs {
      assert c in multiset(kept);
    }
  }

  lemma PushKeepsIds(cs: seq<CandidatePatch>, c: CandidatePatch)
    requires DistinctIds(multiset(cs)) && forall d :: d in cs ==> d.id < c.id
    ensures DistinctIds(multiset(cs + [c]))
  {
    assert multiset(cs + [c]) == multiset(cs) + multiset{c};
    assert forall d :: d in multiset(cs) ==> d in cs;
  }

  lemma {:induction false} RunIsWellKept(isSource: string -> bool, capacity: nat, rs: seq<Recording>)
    ensures WellKept(capacity, Run(isSource, capacity, EMPTY, rs))
    ensures BestFirst(Run(isSource, capacity, EMPTY, rs).candidates)
  {
    if rs != [] {
      var before, r := rs[..|rs| - 1], rs[|rs| - 1];
      RunIsWellKept(isSource, capacity, before);
      RecordKeeps(isSource, capacity, Run(isSource, capacity, EMPTY, before), r);
    }
  }

  lemma RecordKeeps(isSource: string -> bool, capacity: nat, b: Bank, r: Recording)
    requires WellKept(capacity, b)
    ensures WellKept(capacity, Record(isSource, capacity, b, r))
  {
    match EffectOf(isSource, b, r)
    case Ignored =>
    case Rescored(i) => RescoreKeeps(capacity, b, i, r);
    case Pushed(c) => PushKeeps(capacity, b, c);
  }

  lemma RescoreKeeps(capacity: nat, b: Bank, i: nat, r: Recording)
    requires WellKept(capacity, b) && i < |b.candidates| && r.PassedRun?
    ensures WellKept(capacity, b.(candidates := Prune(b.candidates[i := Corroborated(b.candidates[i], r)], capacity)))
  {
    if b.nextId < U32_MAX {
      RescoringKeepsIds(b.candidates, i, r);
    }
    PrunedIsWellKept(capacity, b.candidates[i := Corroborated(b.candidates[i], r)], b.nextId);
  }

  lemma PushKeeps(capacity: nat, b: Bank, c: CandidatePatch)
    requires WellKept(capacity, b) && c.id == b.nextId
    ensures WellKept(capacity, Bank(Prune(b.candidates + [c], capacity), SaturatingInc(b.nextId)))
  {
    if b.nextId < U32_MAX {
      PushKeepsIds(b.candidates, c);
    }
    PrunedIsWellKept(capacity, b.candidates + [c], SaturatingInc(b.nextId));
  }

  // ----- Choosing a candidate to restore -----

  /** The order of `max_by` in the final selection. */
  predicate WorseOrEqualFinal(a: CandidatePatch, b: CandidatePatch) {
    || a.score < b.score
    || (a.score == b.score
        && (a.validationHits < b.validationHits
            || (a.validationHits == b.validationHits && a.changedLines >= b.changedLines)))
  }

  /** `best` is a matching candidate that no matching one beats, and the last of its equals. */
  ghost predicate IsLastMaximum(cs: seq<CandidatePatch>, allowed: CandidatePatch -> bool,
                                leq: (CandidatePatch, CandidatePatch) -> bool, best: nat)
  {
    && best < |cs| && allowed(cs[best])
    && (forall j :: 0 <= j < |cs| && allowed(cs[j]) ==> leq(cs[j], cs[best]))
    && (forall j :: best < j < |cs| && allowed(cs[j]) ==> !leq(cs[best], cs[j]))
  }

  method BestMatching(cs: seq<CandidatePatch>, allowed: CandidatePatch -> bool,
                      leq: (CandidatePatch, CandidatePatch) -> bool) returns (best: Option<nat>)
    requires TotalPreorder(leq)
    ensures best.None? <==> forall j :: 0 <= j < |cs| ==> !allowed(cs[j])
    ensures best.Some? ==> IsLastMaximum(cs, allowed, leq, best.value)
  {
    best := None;
    for i := 0 to |cs|
      invariant best.None? <==> forall j :: 0 <= j < i ==> !allowed(cs[j])
      invariant best.Some? ==> best.value < i && IsLastMaximum(cs[..i], allowed, leq, best.value)
    {
      assert cs[..i + 1] == cs[..i] + [cs[i]];
      if allowed(cs[i]) && (best.None? || leq(cs[best.value], cs[i])) {
        best := Some(i);
      }
    }
    assert cs[..|cs|] == cs;
  }

  predicate FinalRestoreAllowed(isSource: string -> bool, c: CandidatePatch) {
    Authoritative(isSource, c.changedFiles, c.changedLines) && c.positiveFeedback && !c.feedbackOnly
  }

  /** A trusted pass of source files only, and none of those has a higher score, at equal score more
      validations, or at equal validations a smaller change. */
  ghost predicate IsBestTrusted(isSource: string -> bool, cs: seq<CandidatePatch>, best: CandidatePatch) {
    && best in cs && Trusted(isSource, best)
    && forall c :: c in cs && Trusted(isSource, c) ==>
         && c.score <= best.score
         && (c.score == best.score ==>
               && c.validationHits <= best.validationHits
               && (c.validationHits == best.validationHits ==> c.changedLines >= best.changedLines))
  }

  predicate Trusted(isSource: string -> bool, c: CandidatePatch) {
    && c.positiveFeedback && !c.feedbackOnly && c.changedLines > 0 && c.changedFiles != []
    && forall path :: path in c.changedFiles ==> isSource(path)
  }

  /** The candidate that replaces the current diff before the final evaluation: a trusted one, and
      only over an empty diff or one that scores at least 20 lower. */
  method RestoreBestBeforeFinal(enabled: bool, isSource: string -> bool, cs: seq<CandidatePatch>, current: seq<ChangedFile>)
      returns (restored: Option<nat>)
    ensures restored.Some? ==> enabled
    ensures restored.Some? ==>
      && IsLastMaximum(cs, c => FinalRestoreAllowed(isSource, c), WorseOrEqualFinal, restored.value)
      && IsBestTrusted(isSource, cs, cs[restored.value])
      && (current == [] || cs[restored.value].score >= CurrentScore(current) + 20)
    ensures restored.None? && enabled ==>
      forall c :: c in cs && FinalRestoreAllowed(isSource, c) ==> current != [] && c.score < CurrentScore(current) + 20
  {
    if !enabled || cs == [] {
      return None;
    }
    var best := BestMatching(cs, c => FinalRestoreAllowed(isSource, c), WorseOrEqualFinal);
    if best.None? {
      return None;
    }
    if current == [] || cs[best.value].score - CurrentScore(current) >= 20 {
      return best;
    }
    return None;
  }

  /** The feedback-only branch never discards the current diff: the candidates it may choose from
      exclude feedback-only ones. */
  method FeedbackOnlyBranchCanDiscardCurrent(isSource: string -> bool, cs: seq<CandidatePatch>) returns (discard: bool)
    ensures !discard
  {
    var best := BestMatching(cs, c => FinalRestoreAllowed(isSource, c), WorseOrEqualFinal);
    discard := best.Some? && cs[best.value].positiveFeedback && cs[best.value].feedbackOnly;
  }

  // ----- The bank object -----

  class CandidateBank {
    const enabled: bool
    const capacity: nat
    const isSource: string -> bool
    var candidates: seq<CandidatePatch>
    var nextId: nat

    ghost function View(): Bank
      reads this
    {
      Bank(candidates, nextId)
    }

    constructor (enabled: bool, capacity: nat, isSource: string -> bool)
      ensures this.enabled == enabled && this.capacity == capacity && this.isSource == isSource
      ensures View() == EMPTY
    {
      this.enabled := enabled;
      this.capacity := capacity;
      this.isSource := isSource;
      candidates := [];
      nextId := 1;
    }

    method RecordFailedCandidate(changed: seq<ChangedFile>, signals: TestSignals, scopeDesc: string,
                                 sameFailures: nat, snapshot: string)
      modifies this
      ensures View() == if !enabled then old(View()) else
                Record(isSource, capacity, old(View()), FailedRun(changed, signals, scopeDesc, sameFailures, snapshot))
    {
      if !enabled || changed == [] {
        return;
      }
      var files, lines := Paths(changed), TotalLines(changed);
      if !Authoritative(isSource, files, lines) || signals.invalidScope {
        return;
      }
      var r := FailedRun(changed, signals, scopeDesc, sameFailures, snapshot);
      var duplicate := DuplicateIn(candidates, r);
      if duplicate.Some? {
        return;
      }
      Push(r);
    }

    method RecordFeedbackPassCandidate(changed: seq<ChangedFile>, signals: TestSignals, scopeDesc: string,
                                       feedbackOnly: bool, snapshot: string)
      modifies this
      ensures View() == if !enabled then old(View()) else
                Record(isSource, capacity, old(View()), PassedRun(changed, signals, scopeDesc, feedbackOnly, snapshot))
    {
      if !enabled || changed == [] {
        return;
      }
      var files, lines := Paths(changed), TotalLines(changed);
      if !Authoritative(isSource, files, lines) || (feedbackOnly && signals.invalidScope) {
        return;
      }
      var r := PassedRun(changed, signals, scopeDesc, feedbackOnly, snapshot);
      var duplicate := DuplicateIn(candidates, r);
      if duplicate.Some? {
        return;
      }
      if feedbackOnly {
        var index := CorroboratedIn(candidates, r);
        if index.Some? {
          candidates := candidates[index.value := Corroborated(candidates[index.value], r)];
          PruneToCapacity();
          return;
        }
      }
      Push(r);
    }

    method Push(r: Recording)
      modifies this
      ensures View() == Bank(Prune(old(candidates) + [NewCandidate(r, old(nextId))], capacity),
                             SaturatingInc(old(nextId)))
    {
      var candidate := NewCandidate(r, nextId);
      nextId := SaturatingInc(nextId);
      candidates := candidates + [candidate];
      PruneToCapacity();
    }

    method PruneToCapacity()
      modifies this`candidates
      ensures candidates == Prune(old(candidates), capacity)
    {
      candidates := Sort(candidates, RanksBefore);
      ghost var sorted := candidates;
      while |candidates| > capacity
        invariant candidates == Take(sorted, |candidates|) && |candidates| <= |sorted|
        invariant |candidates| >= capacity || candidates == sorted
      {
        candidates := candidates[..|candidates| - 1];
      }
    }
  }
}
