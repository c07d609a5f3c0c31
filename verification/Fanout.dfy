/** Choosing the winner of a candidate tournament.

    Selectable candidates are ranked by a lexicographic comparator with a median tiebreak.  When
    there is no clear winner an arbiter is asked; its answer is not trusted: it must name a
    shortlisted candidate and pass a static risk guard against the fallback.  The results of the
    text heuristics over a candidate's output are fields of the candidate. */
module Fanout {
  import opened Wrappers
  import opened Arithmetic
  import opened Sequences
  import opened StableSort

  datatype Execution = Execution(
    candidateId: string,
    hypothesisScore: nat,
    changedLines: nat,
    timedOut: bool,
    aligned: bool,            // the patch touches the issue's locus
    signal: string,           // validation signal of the output
    penalty: int,             // patch quality penalty
    emptyPatch: bool,
    authoritative: bool,
    touchesTests: bool,
    syntaxFailure: bool,
    collectionFailure: bool,
    validationDidNotRun: bool,
    importErrorInOutput: bool,
    postEditRepairFailure: bool)

  predicate Selectable(e: Execution) {
    && !e.emptyPatch && e.authoritative && !e.touchesTests && !e.syntaxFailure
    && !e.collectionFailure && e.signal != "fail" && !e.validationDidNotRun
  }

  function SignalRank(signal: string): int {
    if signal == "pass" then 4
    else if signal == "source_scope_pass" then 3
    else if signal == "regression_pass" then 2
    else if signal == "fail" then 0
    else 1
  }

  function SignalBonus(signal: string): int {
    if signal == "pass" then 120
    else if signal == "source_scope_pass" then 60
    else if signal == "regression_pass" then 30
    else if signal == "feedback_pass" then 25
    else if signal == "unavailable" || signal == "none" then -45
    else 0
  }

  function Score(e: Execution): int {
    if !Selectable(e) then -1000
    else
      Min(e.hypothesisScore, 200) + 30 + SignalBonus(e.signal) + (if e.aligned then 30 else 0)
      - (if e.importErrorInOutput then 20 else 0) - (if e.timedOut then 10 else 0)
      - (if e.postEditRepairFailure then 10 else 0) - e.penalty - Min(e.changedLines, 80)
  }

  // ----- Lexicographic comparison -----

  /** The order of strings: by the first difference, a prefix first. */
  function CompareText(a: string, b: string): int {
    if a == b then 0
    else if a == [] then -1
    else if b == [] then 1
    else if a[0] < b[0] then -1
    else if b[0] < a[0] then 1
    else CompareText(a[1..], b[1..])
  }

  /** A chain of `then_with`: the first key that differs decides, the id last. */
  predicate KeysLeq(a: seq<int>, b: seq<int>, idA: string, idB: string)
    requires |a| == |b|
  {
    if a == [] then CompareText(idA, idB) <= 0
    else a[0] < b[0] || (a[0] == b[0] && KeysLeq(a[1..], b[1..], idA, idB))
  }

  lemma {:induction false} CompareTextTotal(a: string, b: string)
    ensures CompareText(a, b) == -CompareText(b, a)
    ensures CompareText(a, b) == 0 <==> a == b
  {
    if a != b && a != [] && b != [] && a[0] == b[0] {
      CompareTextTotal(a[1..], b[1..]);
      assert a == [a[0]] + a[1..] && b == [b[0]] + b[1..];
    }
  }

  lemma {:induction false} CompareTextTransitive(a: string, b: string, c: string)
    requires CompareText(a, b) <= 0 && CompareText(b, c) <= 0
    ensures CompareText(a, c) <= 0
  {
    if a != b && b != c && a != [] && b != [] && c != [] && a[0] == b[0] && b[0] == c[0] {
      CompareTextTransitive(a[1..], b[1..], c[1..]);
    }
  }

  lemma {:induction false} KeysTotal(a: seq<int>, b: seq<int>, idA: string, idB: string)
    requires |a| == |b|
    ensures KeysLeq(a, b, idA, idB) || KeysLeq(b, a, idB, idA)
    ensures KeysLeq(a, b, idA, idB) && KeysLeq(b, a, idB, idA) ==> idA == idB
  {
    if a == [] {
      CompareTextTotal(idA, idB);
    } else {
      KeysTotal(a[1..], b[1..], idA, idB);
    }
  }

  lemma {:induction false} KeysTransitive(a: seq<int>, b: seq<int>, c: seq<int>, idA: string, idB: string, idC: string)
    requires |a| == |b| == |c| && KeysLeq(a, b, idA, idB) && KeysLeq(b, c, idB, idC)
    ensures KeysLeq(a, c, idA, idC)
  {
    if a == [] {
      CompareTextTransitive(idA, idB, idC);
    } else if a[0] == b[0] == c[0] {
      KeysTransitive(a[1..], b[1..], c[1..], idA, idB, idC);
    }
  }

  function Distance(a: int, b: int): int {
    if a < b then b - a else a - b
  }

  /** Score high first, then near the median size, low penalty, high prior, small, id. */
  function RankKeys(e: Execution, medianX2: Option<nat>): seq<int> {
    [-Score(e), if medianX2.Some? then Distance(2 * e.changedLines, medianX2.value) else 0,
     e.penalty, 0 - e.hypothesisScore, e.changedLines]
  }

  /** Validation rank high first, then locus, low penalty, no timeout, small, score, prior, id. */
  function RiskKeys(e: Execution): seq<int> {
    [-SignalRank(e.signal), 0 - Flag(e.aligned), e.penalty, Flag(e.timedOut), e.changedLines, -Score(e),
     0 - e.hypothesisScore]
  }

  predicate RankLeq(medianX2: Option<nat>, a: Execution, b: Execution) {
    KeysLeq(RankKeys(a, medianX2), RankKeys(b, medianX2), a.candidateId, b.candidateId)
  }

  predicate RiskLeq(a: Execution, b: Execution) {
    KeysLeq(RiskKeys(a), RiskKeys(b), a.candidateId, b.candidateId)
  }

  function ByRank(medianX2: Option<nat>): (Execution, Execution) -> bool {
    (a, b) => RankLeq(medianX2, a, b)
  }

  lemma RankIsPreorder(medianX2: Option<nat>)
    ensures TotalPreorder(ByRank(medianX2))
  {
    forall a, b ensures RankLeq(medianX2, a, b) || RankLeq(medianX2, b, a) {
      KeysTotal(RankKeys(a, medianX2), RankKeys(b, medianX2), a.candidateId, b.candidateId);
    }
    forall a, b, c | RankLeq(medianX2, a, b) && RankLeq(medianX2, b, c) ensures RankLeq(medianX2, a, c) {
      KeysTransitive(RankKeys(a, medianX2), RankKeys(b, medianX2), RankKeys(c, medianX2),
                     a.candidateId, b.candidateId, c.candidateId);
    }
  }

  lemma RankSeparatesIds(medianX2: Option<nat>, a: Execution, b: Execution)
    requires RankLeq(medianX2, a, b) && RankLeq(medianX2, b, a)
    ensures a.candidateId == b.candidateId
  {
    KeysTotal(RankKeys(a, medianX2), RankKeys(b, medianX2), a.candidateId, b.candidateId);
  }

  // ----- What the orders mean -----

  /** Text order: a proper prefix first, otherwise by the first difference. */
  ghost predicate TextInOrder(a: string, b: string) {
    || a <= b
    || exists k: nat :: k < |a| && k < |b| && a[..k] == b[..k] && a[k] < b[k]
  }

  lemma {:induction false} TextOrderMeans(a: string, b: string)
    ensures CompareText(a, b) <= 0 <==> TextInOrder(a, b)
  {
    if a != [] && b != [] && a[0] == b[0] && a != b {
      TextOrderMeans(a[1..], b[1..]);
      TextOrderTail(a, b);
    } else if a != [] && b != [] && a[0] < b[0] {
      assert a[..0] == b[..0];
    }
  }

  lemma TextOrderTail(a: string, b: string)
    requires a != [] && b != [] && a[0] == b[0]
    ensures TextInOrder(a, b) <==> TextInOrder(a[1..], b[1..])
  {
    var c, d := a[1..], b[1..];
    assert a == [a[0]] + c && b == [a[0]] + d;
    if k: nat :| k < |a| && k < |b| && a[..k] == b[..k] && a[k] < b[k] {
      assert c[..k - 1] == a[..k][1..] && d[..k - 1] == b[..k][1..];
      assert c[k - 1] < d[k - 1];
    }
    if k: nat :| k < |c| && k < |d| && c[..k] == d[..k] && c[k] < d[k] {
      assert a[..k + 1] == [a[0]] + c[..k] && b[..k + 1] == [a[0]] + d[..k];
      assert a[k + 1] < b[k + 1];
    }
  }

  /** How far twice the size is from the doubled median, if there is one. */
  function OffMedian(e: Execution, medianX2: Option<nat>): int {
    match medianX2
    case None => 0
    case Some(m) => if 2 * e.changedLines >= m then 2 * e.changedLines - m else m - 2 * e.changedLines
  }

  /** `a` goes before `b` or stands level: the higher score, then the size nearer to the median, the
      lower penalty, the higher prior, the smaller change, the id. */
  ghost predicate RanksAhead(a: Execution, b: Execution, medianX2: Option<nat>) {
    && Score(a) >= Score(b)
    && (Score(a) == Score(b) ==>
          && OffMedian(a, medianX2) <= OffMedian(b, medianX2)
          && (OffMedian(a, medianX2) == OffMedian(b, medianX2) ==>
                && a.penalty <= b.penalty
                && (a.penalty == b.penalty ==>
                      && a.hypothesisScore >= b.hypothesisScore
                      && (a.hypothesisScore == b.hypothesisScore ==>
                            && a.changedLines <= b.changedLines
                            && (a.changedLines == b.changedLines ==> TextInOrder(a.candidateId, b.candidateId))))))
  }

  lemma RankMeans(a: Execution, b: Execution, medianX2: Option<nat>)
    ensures RankLeq(medianX2, a, b) <==> RanksAhead(a, b, medianX2)
  {
    var x, y := RankKeys(a, medianX2), RankKeys(b, medianX2);
    TextOrderMeans(a.candidateId, b.candidateId);
    KeysOfFive(x, y, a.candidateId, b.candidateId);
  }

  lemma KeysOfFive(x: seq<int>, y: seq<int>, idA: string, idB: string)
    requires |x| == |y| == 5
    ensures KeysLeq(x, y, idA, idB) <==>
            || x[0] < y[0]
            || (x[0] == y[0] && (x[1] < y[1] || (x[1] == y[1] && (x[2] < y[2] || (x[2] == y[2] && (x[3] < y[3]
            || (x[3] == y[3] && (x[4] < y[4] || (x[4] == y[4] && CompareText(idA, idB) <= 0)))))))))
  {
    var x1, y1 := x[1..], y[1..];
    var x2, y2 := x1[1..], y1[1..];
    var x3, y3 := x2[1..], y2[1..];
    var x4, y4 := x3[1..], y3[1..];
    assert x4[1..] == [] && y4[1..] == [];
    assert KeysLeq(x4, y4, idA, idB) <==> x[4] < y[4] || (x[4] == y[4] && CompareText(idA, idB) <= 0);
    assert KeysLeq(x3, y3, idA, idB) <==> x[3] < y[3] || (x[3] == y[3] && KeysLeq(x4, y4, idA, idB));
    assert KeysLeq(x2, y2, idA, idB) <==> x[2] < y[2] || (x[2] == y[2] && KeysLeq(x3, y3, idA, idB));
    assert KeysLeq(x1, y1, idA, idB) <==> x[1] < y[1] || (x[1] == y[1] && KeysLeq(x2, y2, idA, idB));
  }

  /** Less risk: the better validated, then at the issue's locus, the lower penalty, no timeout, the
      smaller change, the higher score, the higher prior, the id. */
  ghost predicate LessRisk(a: Execution, b: Execution) {
    && SignalRank(a.signal) >= SignalRank(b.signal)
    && (SignalRank(a.signal) == SignalRank(b.signal) ==>
          && (b.aligned ==> a.aligned)
          && (a.aligned == b.aligned ==>
                && a.penalty <= b.penalty
                && (a.penalty == b.penalty ==>
                      && (a.timedOut ==> b.timedOut)
                      && (a.timedOut == b.timedOut ==>
                            && a.changedLines <= b.changedLines
                            && (a.changedLines == b.changedLines ==>
                                  && Score(a) >= Score(b)
                                  && (Score(a) == Score(b) ==>
                                        && a.hypothesisScore >= b.hypothesisScore
                                        && (a.hypothesisScore == b.hypothesisScore ==>
                                              TextInOrder(a.candidateId, b.candidateId))))))))
  }

  lemma RiskMeans(a: Execution, b: Execution)
    ensures RiskLeq(a, b) <==> LessRisk(a, b)
  {
    var x, y := RiskKeys(a), RiskKeys(b);
    TextOrderMeans(a.candidateId, b.candidateId);
    assert KeysLeq(x[1..], y[1..], a.candidateId, b.candidateId) <==>
      x[1] < y[1] || (x[1] == y[1] && KeysLeq(x[1..][1..], y[1..][1..], a.candidateId, b.candidateId));
    KeysOfFive(x[1..][1..], y[1..][1..], a.candidateId, b.candidateId);
  }

  // ----- What the score is -----

  /** Other things equal, a pass scores over a pass of the source's scope, that over a regression
      pass, that over a feedback pass, that over any other signal, and that over an untested one. */
  lemma ScoreOfSignals(e: Execution, other: string)
    requires Selectable(e)
    requires other !in ["pass", "source_scope_pass", "regression_pass", "feedback_pass", "unavailable", "none", "fail"]
    ensures Score(e.(signal := "pass")) == Score(e.(signal := "source_scope_pass")) + 60
    ensures Score(e.(signal := "source_scope_pass")) == Score(e.(signal := "regression_pass")) + 30
    ensures Score(e.(signal := "regression_pass")) == Score(e.(signal := "feedback_pass")) + 5
    ensures Score(e.(signal := "feedback_pass")) == Score(e.(signal := other)) + 25
    ensures Score(e.(signal := other)) == Score(e.(signal := "unavailable")) + 45
    ensures Score(e.(signal := "none")) == Score(e.(signal := "unavailable"))
  {
  }

  /** What each other field is worth; a candidate that cannot be selected is worth nothing. */
  lemma ScoreOfFields(e: Execution, n: nat)
    requires Selectable(e)
    ensures Score(e.(aligned := true)) == Score(e.(aligned := false)) + 30
    ensures Score(e.(importErrorInOutput := true)) == Score(e.(importErrorInOutput := false)) - 20
    ensures Score(e.(timedOut := true)) == Score(e.(timedOut := false)) - 10
    ensures Score(e.(postEditRepairFailure := true)) == Score(e.(postEditRepairFailure := false)) - 10
    ensures Score(e.(penalty := e.penalty + n)) == Score(e) - n
    ensures Score(e.(hypothesisScore := n)) == Score(e.(hypothesisScore := 0)) + if n < 200 then n else 200
    ensures Score(e.(changedLines := n)) == Score(e.(changedLines := 0)) - if n < 80 then n else 80
    ensures Score(e.(emptyPatch := true)) == -1000
  {
  }

  /** A small untouched candidate as the point of reference. */
  lemma ScoreOfReference(e: Execution)
    requires Selectable(e) && e.hypothesisScore == 50 && e.changedLines == 4 && e.penalty == 0
    requires !e.aligned && !e.timedOut && !e.importErrorInOutput && !e.postEditRepairFailure
    ensures e.signal == "pass" ==> Score(e) == 196
    ensures e.signal == "regression_pass" ==> Score(e) == 106
  {
  }

  /** What makes a candidate selectable. */
  lemma SelectableMeans(e: Execution)
    ensures Selectable(e) <==>
            !(e.emptyPatch || e.touchesTests || e.syntaxFailure || e.collectionFailure || e.validationDidNotRun)
            && e.authoritative && e.signal != "fail"
  {
  }

  // ----- The median size -----

  function NumLeq(): (nat, nat) -> bool {
    (a, b) => a <= b
  }

  /** `filter_map`: the values of `f` where it has one, in order. */
  function Collect<T, U>(s: seq<T>, f: T -> Option<U>): seq<U> {
    if s == [] then [] else Singleton(f(s[0])) + Collect(s[1..], f)
  }

  function Singleton<U>(o: Option<U>): seq<U> {
    match o case Some(u) => [u] case None => []
  }

  function SizeOf(): Execution -> Option<nat> {
    e => if Selectable(e) && e.changedLines > 0 then Some(e.changedLines) else None
  }

  /** The sizes that count: positive changes of the selectable candidates. */
  function Sizes(es: seq<Execution>): seq<nat> {
    Collect(es, SizeOf())
  }

  /** Twice the median of sorted sizes. */
  function MiddleX2(sizes: seq<nat>): Option<nat> {
    var mid := |sizes| / 2;
    if sizes == [] then None
    else if |sizes| % 2 == 1 then Some(sizes[mid] * 2)
    else Some(sizes[mid - 1] + sizes[mid])
  }

  function MedianX2(es: seq<Execution>): Option<nat> {
    MiddleX2(Sort(Sizes(es), NumLeq()))
  }

  // ----- Ranking -----

  function IfSelectable(): Execution -> Option<Execution> {
    e => if Selectable(e) then Some(e) else None
  }

  /** The selectable executions, in execution order. */
  function SelectableOnly(es: seq<Execution>): seq<Execution> {
    Collect(es, IfSelectable())
  }

  lemma {:induction false} SelectableMembers(es: seq<Execution>)
    ensures forall e :: e in SelectableOnly(es) <==> e in es && Selectable(e)
  {
    if es != [] {
      SelectableMembers(es[1..]);
      assert forall e :: e in es <==> e == es[0] || e in es[1..];
    }
  }

  /** The ranking: the selectable candidates in comparator order. */
  function Ranking(es: seq<Execution>): seq<Execution> {
    Sort(SelectableOnly(es), ByRank(MedianX2(es)))
  }

  ghost predicate DistinctIds(es: seq<Execution>) {
    forall i, j :: 0 <= i < j < |es| ==> es[i].candidateId != es[j].candidateId
  }

  lemma {:induction false} CollectConcat<T, U>(a: seq<T>, b: seq<T>, f: T -> Option<U>)
    ensures Collect(a + b, f) == Collect(a, f) + Collect(b, f)
  {
    if a == [] {
      assert a + b == b;
    } else {
      var head, tail := Singleton(f(a[0])), a[1..];
      CollectConcat(tail, b, f);
      assert (a + b)[0] == a[0] && (a + b)[1..] == tail + b;
      Regroup(head, Collect(tail, f), Collect(b, f));
    }
  }

  /** Collecting from permuted elements gives permuted values. */
  lemma {:induction false} CollectOfPermutation<T, U>(a: seq<T>, b: seq<T>, f: T -> Option<U>)
    requires multiset(a) == multiset(b)
    ensures multiset(Collect(a, f)) == multiset(Collect(b, f))
    decreases |a|
  {
    if a == [] {
      assert |multiset(b)| == 0;
    } else {
      var x := a[0];
      assert x in multiset(b);
      var k :| 0 <= k < |b| && b[k] == x;
      var rest := b[..k] + b[k + 1..];
      assert a == [] + ([x] + a[1..]) && b == b[..k] + ([x] + b[k + 1..]);
      MiddleOut([], [x], a[1..]);
      MiddleOut(b[..k], [x], b[k + 1..]);
      assert [] + a[1..] == a[1..];
      CancelOne(multiset(a[1..]), multiset(rest), x);
      CollectOfPermutation(a[1..], rest, f);
      CollectThree([], [x], a[1..], f);
      CollectThree(b[..k], [x], b[k + 1..], f);
    }
  }

  lemma CancelOne<T>(m: multiset<T>, n: multiset<T>, x: T)
    requires m + multiset{x} == n + multiset{x}
    ensures m == n
  {
    assert m == (m + multiset{x}) - multiset{x};
    assert n == (n + multiset{x}) - multiset{x};
  }

  lemma CollectThree<T, U>(l: seq<T>, x: seq<T>, r: seq<T>, f: T -> Option<U>)
    ensures multiset(Collect(l + (x + r), f)) == multiset(Collect(l + r, f)) + multiset(Collect(x, f))
  {
    CollectConcat(l, x + r, f);
    CollectConcat(x, r, f);
    CollectConcat(l, r, f);
    MiddleOut(Collect(l, f), Collect(x, f), Collect(r, f));
  }

  lemma MiddleOut<T>(l: seq<T>, x: seq<T>, r: seq<T>)
    ensures multiset(l + (x + r)) == multiset(l + r) + multiset(x)
  {
  }

  /** Two sorted arrangements of the same elements agree when equally ranked elements are equal. */
  lemma {:induction false} SortedArrangementIsUnique<T(!new)>(a: seq<T>, b: seq<T>, leq: (T, T) -> bool)
    requires Sorted(a, leq) && Sorted(b, leq) && multiset(a) == multiset(b)
    requires forall x, y :: x in a && y in a && leq(x, y) && leq(y, x) ==> x == y
    ensures a == b
  {
    assert |a| == |multiset(a)| == |multiset(b)| == |b|;
    if a != [] {
      assert a[0] in multiset(b) && b[0] in multiset(a);
      assert a[0] == b[0];
      TailsMatch(a, b);
      assert forall x :: x in a[1..] ==> x in a;
      SortedArrangementIsUnique(a[1..], b[1..], leq);
      assert a == [a[0]] + a[1..] && b == [b[0]] + b[1..];
    }
  }

  lemma TailsMatch<T>(a: seq<T>, b: seq<T>)
    requires a != [] && b != [] && a[0] == b[0] && multiset(a) == multiset(b)
    ensures multiset(a[1..]) == multiset(b[1..])
  {
    assert a == [a[0]] + a[1..] && b == [b[0]] + b[1..];
    assert multiset(a) == multiset(a[1..]) + multiset{a[0]};
    assert multiset(b) == multiset(b[1..]) + multiset{a[0]};
    CancelOne(multiset(a[1..]), multiset(b[1..]), a[0]);
  }

  /** The median does not depend on the order of the executions. */
  lemma MedianIgnoresOrder(a: seq<Execution>, b: seq<Execution>)
    requires multiset(a) == multiset(b)
    ensures MedianX2(a) == MedianX2(b)
  {
    CollectOfPermutation(a, b, SizeOf());
    SortedNumbers(Sizes(a), Sizes(b));
  }

  lemma SortedNumbers(a: seq<nat>, b: seq<nat>)
    requires multiset(a) == multiset(b)
    ensures Sort(a, NumLeq()) == Sort(b, NumLeq())
  {
    SortIsStable(a, NumLeq());
    SortIsStable(b, NumLeq());
    SortedArrangementIsUnique(Sort(a, NumLeq()), Sort(b, NumLeq()), NumLeq());
  }

  /** With distinct ids the ranking does not depend on the order in which candidates ran. */
  lemma RankingIgnoresOrder(a: seq<Execution>, b: seq<Execution>)
    requires multiset(a) == multiset(b) && DistinctIds(a)
    ensures Ranking(a) == Ranking(b)
  {
    MedianIgnoresOrder(a, b);
    CollectOfPermutation(a, b, IfSelectable());
    var median := MedianX2(a);
    RankIsPreorder(median);
    SortIsStable(SelectableOnly(a), ByRank(median));
    SortIsStable(SelectableOnly(b), ByRank(median));
    var ra := Ranking(a);
    forall x, y | x in ra && y in ra && ByRank(median)(x, y) && ByRank(median)(y, x) ensures x == y {
      RankSeparatesIds(median, x, y);
      assert x in multiset(ra) && y in multiset(ra);
      SelectableMembers(a);
      assert x in a && y in a;
    }
    SortedArrangementIsUnique(ra, Ranking(b), ByRank(median));
  }

  // ----- Selection -----

  datatype Config = Config(arbiterEnabled: bool, arbiterMargin: int, arbiterMaxCandidates: nat)

  datatype Selector = NoSelector | Heuristic | Arbiter | StaticRisk

  datatype Decision = Decision(selected: Option<Execution>, selector: Selector)

  predicate Untested(e: Execution) {
    e.signal == "unavailable" || e.signal == "none"
  }

  /** No clear winner: the two best are both untested, or within the margin of each other, unless
      only the first one passed. */
  predicate NeedsArbitration(ranked: seq<Execution>, margin: int) {
    && |ranked| >= 2
    && !(ranked[0].signal == "pass" && ranked[1].signal != "pass")
    && ((Untested(ranked[0]) && Untested(ranked[1])) || Score(ranked[0]) - Score(ranked[1]) <= margin)
  }

  /** The guard on the arbiter's choice. */
  predicate ArbiterAllowed(selected: Execution, fallback: Execution) {
    var s, f := SignalRank(selected.signal), SignalRank(fallback.signal);
    if !Selectable(selected) then false
    else if !Selectable(fallback) then true
    else if s != f then s > f
    else if selected.penalty != fallback.penalty then selected.penalty < fallback.penalty
    else if selected.aligned != fallback.aligned then selected.aligned
    else !(s <= 1 && selected.changedLines > fallback.changedLines + 8)
  }

  /** The candidates that the arbiter sees. */
  function Shortlist(es: seq<Execution>, limit: nat): seq<Execution> {
    Cut(Ranking(es), limit)
  }

  /** At most `limit` of the best, but at least one. */
  function Cut(ranked: seq<Execution>, limit: nat): (shortlist: seq<Execution>)
    ensures ranked != [] ==> shortlist != []
  {
    Take(ranked, if limit == 0 then 1 else limit)
  }

  ghost predicate IsRiskMinimum(shortlist: seq<Execution>, f: Execution) {
    f in shortlist && forall d :: d in shortlist ==> LessRisk(f, d)
  }

  /** The median of the sizes that count: the middle one in order, or between the two middle ones. */
  ghost predicate IsMedianX2(es: seq<Execution>, medianX2: Option<nat>) {
    match medianX2
    case None => forall e :: e in es && Selectable(e) ==> e.changedLines == 0
    case Some(m) =>
      exists t: seq<nat> ::
        && t != [] && multiset(t) == multiset(Sizes(es)) && (forall i, j :: 0 <= i < j < |t| ==> t[i] <= t[j])
        && m == t[(|t| - 1) / 2] + t[|t| / 2]
  }

  lemma {:induction false} SizesMembers(es: seq<Execution>)
    ensures Sizes(es) == [] <==> forall e :: e in es && Selectable(e) ==> e.changedLines == 0
  {
    if es != [] {
      SizesMembers(es[1..]);
      assert forall e :: e in es <==> e == es[0] || e in es[1..];
    }
  }

  lemma MiddleOf(t: seq<nat>)
    requires t != []
    ensures MiddleX2(t) == Some(t[(|t| - 1) / 2] + t[|t| / 2])
  {
    if |t| % 2 == 1 {
      assert (|t| - 1) / 2 == |t| / 2;
    } else {
      assert (|t| - 1) / 2 == |t| / 2 - 1;
    }
  }

  lemma SortedSizes(sizes: seq<nat>, t: seq<nat>)
    requires t == Sort(sizes, NumLeq())
    ensures multiset(t) == multiset(sizes) && |t| == |sizes|
    ensures forall i, j :: 0 <= i < j < |t| ==> t[i] <= t[j]
  {
    SortIsStable(sizes, NumLeq());
    assert |multiset(t)| == |multiset(sizes)|;
    forall i, j | 0 <= i < j < |t| ensures t[i] <= t[j] {
      assert NumLeq()(t[i], t[j]);
    }
  }

  lemma MedianIsMedian(es: seq<Execution>)
    ensures IsMedianX2(es, MedianX2(es))
  {
    var t := Sort(Sizes(es), NumLeq());
    SizesMembers(es);
    SortedSizes(Sizes(es), t);
    if t != [] {
      MiddleOf(t);
      assert MedianX2(es) == Some(t[(|t| - 1) / 2] + t[|t| / 2]);
    }
  }

  /** The selectable candidates, each before those it ranks ahead of. */
  ghost predicate IsRankingOf(es: seq<Execution>, ranked: seq<Execution>) {
    && multiset(ranked) == multiset(SelectableOnly(es))
    && exists m :: IsMedianX2(es, m) && forall i, j :: 0 <= i < j < |ranked| ==> RanksAhead(ranked[i], ranked[j], m)
  }

  lemma RankingIsRanking(es: seq<Execution>)
    ensures IsRankingOf(es, Ranking(es))
  {
    var m, ranked := MedianX2(es), Ranking(es);
    MedianIsMedian(es);
    RankIsPreorder(m);
    SortIsStable(SelectableOnly(es), ByRank(m));
    forall i, j | 0 <= i < j < |ranked| ensures RanksAhead(ranked[i], ranked[j], m) {
      assert ByRank(m)(ranked[i], ranked[j]);
      RankMeans(ranked[i], ranked[j], m);
    }
  }

  /** The collecting loops of the source. */
  method RankedSelectable(es: seq<Execution>) returns (ranked: seq<Execution>)
    ensures ranked == Ranking(es)
    ensures IsRankingOf(es, ranked)
  {
    ranked := CollectRanked(es);
    RankingIsRanking(es);
  }

  method CollectRanked(es: seq<Execution>) returns (ranked: seq<Execution>)
    ensures ranked == Ranking(es)
  {
    var selectable: seq<Execution>, sizes: seq<nat> := [], [];
    for i := 0 to |es|
      invariant selectable == SelectableOnly(es[..i]) && sizes == Sizes(es[..i])
    {
      assert es[..i + 1] == es[..i] + [es[i]];
      CollectConcat(es[..i], [es[i]], IfSelectable());
      CollectConcat(es[..i], [es[i]], SizeOf());
      assert [es[i]][1..] == [];
      if Selectable(es[i]) {
        selectable := selectable + [es[i]];
        if es[i].changedLines > 0 {
          sizes := sizes + [es[i].changedLines];
        }
      }
    }
    assert es[..|es|] == es;
    ranked := Sort(selectable, ByRank(MiddleX2(Sort(sizes, NumLeq()))));
  }

  /** The first candidate of least risk. */
  function RiskMinimum(shortlist: seq<Execution>): Execution
    requires shortlist != []
  {
    var last := shortlist[|shortlist| - 1];
    if |shortlist| == 1 then last
    else
      var best := RiskMinimum(shortlist[..|shortlist| - 1]);
      if RiskLeq(best, last) then best else last
  }

  method StaticRiskMinimum(shortlist: seq<Execution>) returns (fallback: Execution)
    requires shortlist != []
    ensures fallback == RiskMinimum(shortlist) && IsRiskMinimum(shortlist, fallback)
  {
    fallback := shortlist[0];
    for i := 1 to |shortlist|
      invariant fallback == RiskMinimum(shortlist[..i])
    {
      assert shortlist[..i + 1][..i] == shortlist[..i];
      if !RiskLeq(fallback, shortlist[i]) {
        fallback := shortlist[i];
      }
    }
    assert shortlist[..|shortlist|] == shortlist;
    RiskMinimumIsLeast(shortlist);
  }

  lemma RiskMinimumIsLeast(shortlist: seq<Execution>)
    requires shortlist != []
    ensures IsRiskMinimum(shortlist, RiskMinimum(shortlist))
  {
    RiskMinimumIsLeq(shortlist);
    forall d | d in shortlist ensures LessRisk(RiskMinimum(shortlist), d) {
      RiskMeans(RiskMinimum(shortlist), d);
    }
  }

  lemma {:induction false} RiskMinimumIsLeq(shortlist: seq<Execution>)
    requires shortlist != []
    ensures var f := RiskMinimum(shortlist); f in shortlist && forall d :: d in shortlist ==> RiskLeq(f, d)
  {
    var seen, last := shortlist[..|shortlist| - 1], shortlist[|shortlist| - 1];
    RiskReflexive(last);
    assert shortlist == seen + [last];
    if |shortlist| > 1 {
      RiskMinimumIsLeq(seen);
      var best := RiskMinimum(seen);
      KeysTotal(RiskKeys(best), RiskKeys(last), best.candidateId, last.candidateId);
      if !RiskLeq(best, last) {
        RiskImproves(seen, best, last);
      }
    }
  }

  lemma RiskReflexive(e: Execution)
    ensures RiskLeq(e, e)
  {
    KeysTotal(RiskKeys(e), RiskKeys(e), e.candidateId, e.candidateId);
  }

  lemma RiskImproves(seen: seq<Execution>, old_: Execution, e: Execution)
    requires RiskLeq(e, old_) && forall d :: d in seen ==> RiskLeq(old_, d)
    ensures RiskLeq(e, e) && forall d :: d in seen ==> RiskLeq(e, d)
  {
    RiskReflexive(e);
    forall d | d in seen ensures RiskLeq(e, d) {
      KeysTransitive(RiskKeys(e), RiskKeys(old_), RiskKeys(d), e.candidateId, old_.candidateId, d.candidateId);
    }
  }

  /** The least risk includes the highest validation rank. */
  lemma RiskRanksSignals(f: Execution, d: Execution)
    requires LessRisk(f, d)
    ensures SignalRank(d.signal) <= SignalRank(f.signal)
  {
  }

  /** What the decision guarantees, whatever the arbiter said. */
  ghost predicate SoundDecision(es: seq<Execution>, config: Config, d: Decision) {
    match d.selected
    case None => d.selector == NoSelector && forall e :: e in es ==> !Selectable(e)
    case Some(e) =>
      && e in es && Selectable(e)
      && (d.selector == Heuristic ==>
            exists m :: IsMedianX2(es, m) && forall other :: other in es && Selectable(other) ==> RanksAhead(e, other, m))
      && (d.selector == Arbiter || d.selector == StaticRisk ==>
            var shortlist := Shortlist(es, config.arbiterMaxCandidates);
            && e in shortlist
            && (forall other :: other in shortlist ==> SignalRank(other.signal) <= SignalRank(e.signal))
            && exists f :: IsRiskMinimum(shortlist, f) && ArbitratedOver(e, f))
      && d.selector != NoSelector
  }

  /** No worse than the fallback in penalty, nor, at equal penalty, in alignment. */
  predicate ArbitratedOver(e: Execution, f: Execution) {
    && e.penalty <= f.penalty
    && (e.penalty == f.penalty && f.aligned ==> e.aligned)
  }

  lemma RankingFacts(es: seq<Execution>)
    ensures forall e :: e in Ranking(es) <==> e in es && Selectable(e)
    ensures Ranking(es) != [] ==> forall e :: e in Ranking(es) ==> RanksAhead(Ranking(es)[0], e, MedianX2(es))
  {
    var median, ranked := MedianX2(es), Ranking(es);
    RankIsPreorder(median);
    SortIsStable(SelectableOnly(es), ByRank(median));
    SelectableMembers(es);
    forall e ensures e in ranked <==> e in SelectableOnly(es) {
      assert e in ranked <==> e in multiset(ranked);
    }
    forall e | e in ranked ensures RanksAhead(ranked[0], e, median) {
      var k :| 0 <= k < |ranked| && ranked[k] == e;
      assert ByRank(median)(ranked[0], e) || k == 0;
      KeysTotal(RankKeys(e, median), RankKeys(e, median), e.candidateId, e.candidateId);
      RankMeans(ranked[0], e, median);
    }
  }

  lemma AllowedIsSound(shortlist: seq<Execution>, e: Execution, f: Execution)
    requires IsRiskMinimum(shortlist, f) && e in shortlist && Selectable(f)
    requires e == f || ArbiterAllowed(e, f)
    ensures forall other :: other in shortlist ==> SignalRank(other.signal) <= SignalRank(e.signal)
    ensures ArbitratedOver(e, f)
  {
    forall other | other in shortlist ensures SignalRank(other.signal) <= SignalRank(f.signal) {
      RiskRanksSignals(f, other);
    }
  }

  function ById(shortlist: seq<Execution>, id: string): (found: Option<Execution>)
    ensures found.Some? ==> found.value in shortlist && found.value.candidateId == id
    ensures found.None? ==> forall e :: e in shortlist ==> e.candidateId != id
  {
    if shortlist == [] then None
    else if shortlist[0].candidateId == id then Some(shortlist[0])
    else ById(shortlist[1..], id)
  }

  /** The decision as a function of the ranking and of the arbiter's answer. */
  function Select(config: Config, ranked: seq<Execution>, answer: Option<string>): Decision {
    if ranked == [] then Decision(None, NoSelector)
    else if !NeedsArbitration(ranked, config.arbiterMargin) || !config.arbiterEnabled then
      Decision(Some(ranked[0]), Heuristic)
    else
      var shortlist := Cut(ranked, config.arbiterMaxCandidates);
      var fallback := RiskMinimum(shortlist);
      var named := if answer.Some? then ById(shortlist, answer.value) else None;
      if named.Some? && ArbiterAllowed(named.value, fallback) then Decision(named, Arbiter)
      else Decision(Some(fallback), StaticRisk)
  }

  method SelectCandidate(config: Config, es: seq<Execution>, answer: Option<string>) returns (d: Decision)
    ensures d == Select(config, Ranking(es), answer)
    ensures SoundDecision(es, config, d)
  {
    var ranked := CollectRanked(es);
    SelectIsSound(config, es, answer);
    if ranked == [] {
      return Decision(None, NoSelector);
    }
    if !NeedsArbitration(ranked, config.arbiterMargin) || !config.arbiterEnabled {
      return Decision(Some(ranked[0]), Heuristic);
    }
    var limit := if config.arbiterMaxCandidates < |ranked| then config.arbiterMaxCandidates else |ranked|;
    var shortlist := ranked[..if limit == 0 then 1 else limit];
    assert shortlist == Cut(ranked, config.arbiterMaxCandidates);
    var fallback := StaticRiskMinimum(shortlist);
    if answer.Some? {
      var named := ById(shortlist, answer.value);
      if named.Some? && ArbiterAllowed(named.value, fallback) {
        return Decision(named, Arbiter);
      }
    }
    return Decision(Some(fallback), StaticRisk);
  }

  lemma SelectIsSound(config: Config, es: seq<Execution>, answer: Option<string>)
    ensures SoundDecision(es, config, Select(config, Ranking(es), answer))
  {
    var ranked, d := Ranking(es), Select(config, Ranking(es), answer);
    RankingFacts(es);
    MedianIsMedian(es);
    if d.selector == Arbiter || d.selector == StaticRisk {
      var shortlist := Shortlist(es, config.arbiterMaxCandidates);
      RiskMinimumIsLeast(shortlist);
      AllowedIsSound(shortlist, d.selected.value, RiskMinimum(shortlist));
      assert d.selected.value in ranked;
    }
  }

  /** With distinct ids the winner does not depend on the order in which candidates ran. */
  lemma SelectionIgnoresOrder(config: Config, a: seq<Execution>, b: seq<Execution>, answer: Option<string>)
    requires multiset(a) == multiset(b) && DistinctIds(a)
    ensures Select(config, Ranking(a), answer) == Select(config, Ranking(b), answer)
  {
    RankingIgnoresOrder(a, b);
  }

  // ----- Who decides -----

  /** The guard: a selectable choice over an unselectable fallback, or the better validated, then the
      lower penalty, then the one at the issue's locus; at equal standing a barely validated choice
      may be at most 8 lines larger. */
  lemma AllowedExactly(e: Execution, f: Execution)
    requires Selectable(f)
    ensures ArbiterAllowed(e, f) <==>
            && Selectable(e)
            && SignalRank(e.signal) >= SignalRank(f.signal)
            && (SignalRank(e.signal) == SignalRank(f.signal) ==>
                  && e.penalty <= f.penalty
                  && (e.penalty == f.penalty ==>
                        && (f.aligned ==> e.aligned)
                        && (f.aligned == e.aligned && SignalRank(e.signal) <= 1 ==> e.changedLines <= f.changedLines + 8)))
  {
  }

  /** Validation signals from the best to the worst. */
  lemma SignalsInOrder(other: string)
    requires other !in ["pass", "source_scope_pass", "regression_pass", "fail"]
    ensures SignalRank("pass") > SignalRank("source_scope_pass") > SignalRank("regression_pass") > SignalRank(other)
    ensures SignalRank(other) == 1 && SignalRank("fail") == 0
  {
  }

  /** The first of a ranking stands alone, only it passed, or it leads by more than the margin and the
      two best are not both untested. */
  predicate ClearWinner(ranked: seq<Execution>, margin: int) {
    || |ranked| == 1
    || (|ranked| > 1 && ranked[0].signal == "pass" && ranked[1].signal != "pass")
    || (&& |ranked| > 1 && Score(ranked[0]) > Score(ranked[1]) + margin
        && !(ranked[0].signal in {"unavailable", "none"} && ranked[1].signal in {"unavailable", "none"}))
  }

  /** The arbiter's answer wins if it names a shortlisted candidate that the guard allows over the
      fallback, and the fallback if not. */
  ghost predicate ArbitrationOf(shortlist: seq<Execution>, answer: Option<string>, f: Execution, d: Decision) {
    && IsRiskMinimum(shortlist, f)
    && var named := if answer.Some? then ById(shortlist, answer.value) else None;
       d == if named.Some? && ArbiterAllowed(named.value, f) then Decision(named, Arbiter) else Decision(Some(f), StaticRisk)
  }

  /** A clear winner wins at once, and so does the first when there is no arbiter; otherwise the
      first few are arbitrated. */
  lemma SelectExactly(config: Config, ranked: seq<Execution>, answer: Option<string>)
    requires ranked != []
    ensures var d := Select(config, ranked, answer);
      if ClearWinner(ranked, config.arbiterMargin) || !config.arbiterEnabled then d == Decision(Some(ranked[0]), Heuristic)
      else
        var n := if config.arbiterMaxCandidates == 0 then 1 else config.arbiterMaxCandidates;
        exists f :: ArbitrationOf(ranked[..Min(|ranked|, n)], answer, f, d)
  {
    var shortlist := Cut(ranked, config.arbiterMaxCandidates);
    var n := if config.arbiterMaxCandidates == 0 then 1 else config.arbiterMaxCandidates;
    assert shortlist == ranked[..Min(|ranked|, n)];
    RiskMinimumIsLeast(shortlist);
    if !ClearWinner(ranked, config.arbiterMargin) && config.arbiterEnabled {
      assert ArbitrationOf(shortlist, answer, RiskMinimum(shortlist), Select(config, ranked, answer));
    }
  }
}
