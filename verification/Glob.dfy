/** Path globs of workflow interrupts.

    `GlobMatchImpl` is the iterative matcher: it remembers only the last single `*`
    and recurses only on `**`.  `Matches` is the backtracking reading of a pattern:
    every star tries every run it may stand for.  The matcher decides exactly
    that relation, although it never revisits a star before the last one. */
module Glob {
  type Byte = b: int | 0 <= b < 256

  const STAR: Byte := 42      // '*'
  const QUESTION: Byte := 63  // '?'
  const SLASH: Byte := 47     // '/'

  // ----- The meaning of a pattern -----

  predicate AllStars(p: seq<Byte>) {
    forall i :: 0 <= i < |p| ==> p[i] == STAR
  }

  predicate NoSlash(s: seq<Byte>) {
    forall i :: 0 <= i < |s| ==> s[i] != SLASH
  }

  predicate DoubleStar(p: seq<Byte>) {
    |p| >= 2 && p[0] == STAR && p[1] == STAR
  }

  /** One non-star pattern byte against one path byte. */
  predicate Accepts(p: Byte, c: Byte) {
    p != STAR && (p == c || (p == QUESTION && c != SLASH))
  }

  /** The pattern left after `**` and the optional `/` that follows it. */
  function AfterDoubleStar(p: seq<Byte>): (rest: seq<Byte>)
    requires DoubleStar(p)
    ensures |rest| < |p|
  {
    if |p| > 2 && p[2] == SLASH then p[3..] else p[2..]
  }

  /** `*` is any run without `/`, `**` (with one optional `/`) any run at all; once the
      path is used up only stars may remain. */
  ghost predicate Matches(p: seq<Byte>, s: seq<Byte>)
    decreases |p|, 0
  {
    if s == [] then AllStars(p)
    else if p == [] then false
    else if DoubleStar(p) then MatchesSomeSuffix(AfterDoubleStar(p), s)
    else if p[0] == STAR then MatchesAfterRun(p[1..], s)
    else Accepts(p[0], s[0]) && Matches(p[1..], s[1..])
  }

  ghost predicate MatchesSomeSuffix(p: seq<Byte>, s: seq<Byte>)
    decreases |p|, 1
  {
    exists i :: 0 <= i <= |s| && Matches(p, s[i..])
  }

  /** Some slash-free run at the front of `s` can be skipped so that `p` matches the rest. */
  ghost predicate MatchesAfterRun(p: seq<Byte>, s: seq<Byte>)
    decreases |p|, 1
  {
    exists k :: 0 <= k <= |s| && NoSlash(s[..k]) && Matches(p, s[k..])
  }

  // ----- Star-free segments -----

  /** `seg` holds no star and matches `t` byte by byte. */
  predicate SegmentMatches(seg: seq<Byte>, t: seq<Byte>) {
    |seg| == |t| && forall i :: 0 <= i < |seg| ==> Accepts(seg[i], t[i])
  }

  predicate StarFree(seg: seq<Byte>) {
    forall i :: 0 <= i < |seg| ==> seg[i] != STAR
  }

  /** A star-free segment can be matched in one way only: in place. */
  lemma {:induction false} SegmentPeel(seg: seq<Byte>, rest: seq<Byte>, s: seq<Byte>)
    requires StarFree(seg)
    ensures Matches(seg + rest, s) <==>
            |seg| <= |s| && SegmentMatches(seg, s[..|seg|]) && Matches(rest, s[|seg|..])
  {
    if seg == [] {
      assert seg + rest == rest && s[0..] == s;
    } else if s == [] {
      assert (seg + rest)[0] == seg[0];
    } else {
      assert (seg + rest)[1..] == seg[1..] + rest;
      SegmentPeel(seg[1..], rest, s[1..]);
      if |seg| <= |s| {
        assert s[1..][..|seg| - 1] == s[..|seg|][1..];
        assert s[1..][|seg| - 1..] == s[|seg|..];
        assert forall i :: 1 <= i < |seg| ==> seg[1..][i - 1] == seg[i];
        assert SegmentMatches(seg, s[..|seg|]) <==>
               Accepts(seg[0], s[0]) && SegmentMatches(seg[1..], s[..|seg|][1..]);
      }
    }
  }

  /** Some slash-free run can be skipped so that `rest` holds of what follows. */
  ghost predicate AfterRun(rest: seq<Byte> -> bool, s: seq<Byte>) {
    exists k :: 0 <= k <= |s| && NoSlash(s[..k]) && rest(s[k..])
  }

  lemma AfterRunStep(rest: seq<Byte> -> bool, s: seq<Byte>)
    requires s != []
    ensures AfterRun(rest, s) <==> rest(s) || (s[0] != SLASH && AfterRun(rest, s[1..]))
  {
    var t := s[1..];
    if AfterRun(rest, s) {
      var k :| 0 <= k <= |s| && NoSlash(s[..k]) && rest(s[k..]);
      if k == 0 {
        assert s[k..] == s;
      } else {
        assert s[..k][0] == s[0];
        assert t[k - 1..] == s[k..] && t[..k - 1] == s[..k][1..];
      }
    }
    if rest(s) {
      assert s[0..] == s && NoSlash(s[..0]);
    }
    if s[0] != SLASH && AfterRun(rest, t) {
      var k :| 0 <= k <= |t| && NoSlash(t[..k]) && rest(t[k..]);
      assert t[k..] == s[k + 1..] && s[..k + 1] == [s[0]] + t[..k];
    }
  }

  lemma RunIsAfterRun(p: seq<Byte>, s: seq<Byte>)
    ensures MatchesAfterRun(p, s) <==> AfterRun(t => Matches(p, t), s)
  {
    var rest: seq<Byte> -> bool := t => Matches(p, t);
    if MatchesAfterRun(p, s) {
      var k :| 0 <= k <= |s| && NoSlash(s[..k]) && Matches(p, s[k..]);
      assert rest(s[k..]);
    }
    if AfterRun(rest, s) {
      var k :| 0 <= k <= |s| && NoSlash(s[..k]) && rest(s[k..]);
      assert Matches(p, s[k..]);
    }
  }

  /** Moving the last star one byte further: the only other choices skip a non-slash byte. */
  lemma RunStep(p: seq<Byte>, s: seq<Byte>)
    requires s != []
    ensures MatchesAfterRun(p, s) <==> Matches(p, s) || (s[0] != SLASH && MatchesAfterRun(p, s[1..]))
  {
    AfterRunStep(t => Matches(p, t), s);
    RunIsAfterRun(p, s);
    RunIsAfterRun(p, s[1..]);
  }

  /** Two places where the same segment matches, the later one reached over a slash-free
      run, enclose no slash: the bytes between the two ends are slash-free as well. */
  lemma LaterMatchCrossesNoSlash(seg: seq<Byte>, s: seq<Byte>, k: nat)
    requires k + |seg| <= |s|
    requires SegmentMatches(seg, s[..|seg|]) && SegmentMatches(seg, s[k..k + |seg|])
    requires NoSlash(s[..k])
    ensures NoSlash(s[|seg|..k + |seg|])
  {
    if k > 0 {
      forall x | 0 <= x < k + |seg| ensures s[x] != SLASH {
        NoSlashThroughLaterMatch(seg, s, k, x);
      }
    }
  }

  /** Position `x` of the later match carries a slash just when position `x - k` of the earlier
      one does, so slash-freeness spreads from the skipped run over both matches. */
  lemma {:induction false} NoSlashThroughLaterMatch(seg: seq<Byte>, s: seq<Byte>, k: nat, x: nat)
    requires k > 0 && k + |seg| <= |s| && x < k + |seg|
    requires SegmentMatches(seg, s[..|seg|]) && SegmentMatches(seg, s[k..k + |seg|])
    requires NoSlash(s[..k])
    ensures s[x] != SLASH
  {
    if x < k {
      assert s[..k][x] == s[x];
    } else {
      NoSlashThroughLaterMatch(seg, s, k, x - k);
      assert s[..|seg|][x - k] == s[x - k] && s[k..k + |seg|][x - k] == s[x];
    }
  }

  /** A star (single or double) that matches after skipping a slash-free run matches
      without skipping it. */
  lemma StarAbsorbsRun(rest: seq<Byte>, s: seq<Byte>, k: nat)
    requires rest != [] && rest[0] == STAR && k <= |s| && NoSlash(s[..k])
    requires Matches(rest, s[k..])
    ensures Matches(rest, s)
  {
    if s == [] {
      assert s[k..] == s;
    } else if DoubleStar(rest) {
      DoubleStarAbsorbs(rest, s, k);
    } else if k == |s| {
      assert rest[1..] == [] && s[k..] == [];
    } else {
      var t := s[k..];
      assert MatchesAfterRun(rest[1..], t);
      var i :| 0 <= i <= |t| && NoSlash(t[..i]) && Matches(rest[1..], t[i..]);
      assert t[i..] == s[k + i..] && s[..k + i] == s[..k] + t[..i];
    }
  }

  lemma DoubleStarAbsorbs(rest: seq<Byte>, s: seq<Byte>, k: nat)
    requires DoubleStar(rest) && k <= |s| && s != []
    requires Matches(rest, s[k..])
    ensures Matches(rest, s)
  {
    var t, after := s[k..], AfterDoubleStar(rest);
    if t == [] {
      assert AllStars(after) && s[k..] == [];
    } else {
      var i :| 0 <= i <= |t| && Matches(after, t[i..]);
      assert t[i..] == s[k + i..];
    }
  }

  /** The greedy choice.  Once the segment after the last star has matched at the earliest
      place and the pattern continues with a star, the earlier star need never move again. */
  lemma GreedyStar(seg: seq<Byte>, whole: seq<Byte>, rest: seq<Byte>, s: seq<Byte>, tail: seq<Byte>)
    requires whole == seg + rest && |seg| <= |s| && tail == s[|seg|..]
    requires SegmentMatches(seg, s[..|seg|])
    requires rest != [] && rest[0] == STAR
    ensures MatchesAfterRun(whole, s) <==> Matches(rest, tail)
  {
    if MatchesAfterRun(whole, s) {
      var k :| 0 <= k <= |s| && NoSlash(s[..k]) && Matches(whole, s[k..]);
      GreedyMove(seg, rest, s, k);
    }
    if Matches(rest, tail) {
      SegmentPeel(seg, rest, s);
      assert s[0..] == s && NoSlash(s[..0]);
    }
  }

  lemma GreedyMove(seg: seq<Byte>, rest: seq<Byte>, s: seq<Byte>, k: nat)
    requires |seg| <= |s| && SegmentMatches(seg, s[..|seg|])
    requires rest != [] && rest[0] == STAR
    requires k <= |s| && NoSlash(s[..k]) && Matches(seg + rest, s[k..])
    ensures Matches(rest, s[|seg|..])
  {
    var m := |seg|;
    SegmentPeel(seg, rest, s[k..]);
    assert s[k..][..m] == s[k..k + m];
    LaterMatchCrossesNoSlash(seg, s, k);
    assert s[m..][k..] == s[k..][m..] && s[m..][..k] == s[m..k + m];
    StarAbsorbsRun(rest, s[m..], k);
  }

  /** When the path ends inside the current attempt, a later start has too few bytes left. */
  lemma GreedyEnd(seg: seq<Byte>, rest: seq<Byte>, s: seq<Byte>)
    requires SegmentMatches(seg, s)
    ensures MatchesAfterRun(seg + rest, s) <==> AllStars(rest)
  {
    assert s[..|seg|] == s && s[0..] == s && s[..0] == [] && s[|seg|..] == [];
    SegmentPeel(seg, rest, s);
    if MatchesAfterRun(seg + rest, s) {
      var k :| 0 <= k <= |s| && NoSlash(s[..k]) && Matches(seg + rest, s[k..]);
      SegmentPeel(seg, rest, s[k..]);
    }
  }

  // ----- The matcher -----

  /** What the loop has left to decide at `(pi, si)`: without a star the two tails, otherwise
      whether the last star, seen at `starPi` and now tried at `starSi`, can be placed. */
  ghost predicate Remaining(p: seq<Byte>, s: seq<Byte>, pi: nat, si: nat, starPi: int, starSi: nat)
    requires pi <= |p| && si <= |s| && -1 <= starPi < |p| && starSi <= |s|
  {
    if starPi < 0 then Matches(p[pi..], s[si..]) else MatchesAfterRun(p[starPi + 1..], s[starSi..])
  }

  predicate InBounds(p: seq<Byte>, s: seq<Byte>, pi: nat, si: nat, starPi: int, starSi: nat) {
    -1 <= starPi < pi <= |p| && starSi <= si <= |s|
  }

  /** The bytes since the last star are matched, and what remains is `answer`. */
  ghost predicate Attempt(p: seq<Byte>, s: seq<Byte>, pi: nat, si: nat, starPi: int, starSi: nat, answer: bool) {
    && InBounds(p, s, pi, si, starPi, starSi)
    && (starPi >= 0 ==> SegmentMatches(p[starPi + 1..pi], s[starSi..si]))
    && (Remaining(p, s, pi, si, starPi, starSi) <==> answer)
  }

  lemma SplitAttempt(p: seq<Byte>, s: seq<Byte>, pi: nat, si: nat, starPi: int, starSi: nat)
    requires InBounds(p, s, pi, si, starPi, starSi)
    ensures p[starPi + 1..] == p[starPi + 1..pi] + p[pi..]
    ensures s[starSi..][..si - starSi] == s[starSi..si] && s[starSi..][si - starSi..] == s[si..]
  {
  }

  /** One more byte accepted. */
  lemma AttemptAdvances(p: seq<Byte>, s: seq<Byte>, pi: nat, si: nat, starPi: int, starSi: nat, answer: bool)
    requires Attempt(p, s, pi, si, starPi, starSi, answer) && pi < |p| && si < |s|
    requires Accepts(p[pi], s[si])
    ensures Attempt(p, s, pi + 1, si + 1, starPi, starSi, answer)
  {
    if starPi >= 0 {
      assert p[starPi + 1..pi + 1] == p[starPi + 1..pi] + [p[pi]];
      assert s[starSi..si + 1] == s[starSi..si] + [s[si]];
    } else {
      assert p[pi..][1..] == p[pi + 1..] && s[si..][1..] == s[si + 1..];
    }
  }

  /** A star after a completed attempt takes over the whole remaining question. */
  lemma AttemptAtStar(p: seq<Byte>, s: seq<Byte>, pi: nat, si: nat, starPi: int, starSi: nat, answer: bool)
    requires Attempt(p, s, pi, si, starPi, starSi, answer) && pi < |p| && p[pi] == STAR
    ensures answer <==> Matches(p[pi..], s[si..])
  {
    if starPi >= 0 {
      SplitAttempt(p, s, pi, si, starPi, starSi);
      GreedyStar(p[starPi + 1..pi], p[starPi + 1..], p[pi..], s[starSi..], s[si..]);
    }
  }

  /** A single star becomes the last star, tried at the current position. */
  lemma AttemptMovesToStar(p: seq<Byte>, s: seq<Byte>, pi: nat, si: nat, starPi: int, starSi: nat, answer: bool)
    requires Attempt(p, s, pi, si, starPi, starSi, answer) && pi < |p| && p[pi] == STAR
    requires si < |s| && !(pi + 1 < |p| && p[pi + 1] == STAR)
    ensures Attempt(p, s, pi + 1, si, pi, si, answer)
  {
    AttemptAtStar(p, s, pi, si, starPi, starSi, answer);
    assert p[pi..][1..] == p[pi + 1..];
  }

  lemma AttemptStarts(p: seq<Byte>, s: seq<Byte>)
    ensures Attempt(p, s, 0, 0, -1, 0, Matches(p, s))
  {
    assert p[0..] == p && s[0..] == s;
  }

  lemma AttemptFails(p: seq<Byte>, s: seq<Byte>, pi: nat, si: nat, starSi: nat, answer: bool)
    requires Attempt(p, s, pi, si, -1, starSi, answer) && Stuck(p, s, pi, si)
    ensures !answer
  {
  }

  predicate Stuck(p: seq<Byte>, s: seq<Byte>, pi: nat, si: nat) {
    pi <= |p| && si < |s| && (pi == |p| || (p[pi] != STAR && !Accepts(p[pi], s[si])))
  }

  /** When the current attempt is stuck, the star can only move past a non-slash byte. */
  lemma AttemptBacktracks(p: seq<Byte>, s: seq<Byte>, pi: nat, si: nat, starPi: int, starSi: nat, answer: bool)
    requires Attempt(p, s, pi, si, starPi, starSi, answer) && starPi >= 0 && Stuck(p, s, pi, si)
    ensures if s[starSi] == SLASH then !answer else Attempt(p, s, starPi + 1, starSi + 1, starPi, starSi + 1, answer)
  {
    SplitAttempt(p, s, pi, si, starPi, starSi);
    SegmentPeel(p[starPi + 1..pi], p[pi..], s[starSi..]);
    RunStep(p[starPi + 1..], s[starSi..]);
    assert s[starSi..][1..] == s[starSi + 1..];
  }

  lemma AttemptAtEnd(p: seq<Byte>, s: seq<Byte>, pi: nat, starPi: int, starSi: nat, answer: bool)
    requires Attempt(p, s, pi, |s|, starPi, starSi, answer)
    ensures answer <==> AllStars(p[pi..])
  {
    assert s[|s|..] == [];
    if starPi >= 0 {
      SplitAttempt(p, s, pi, |s|, starPi, starSi);
      assert s[starSi..|s|] == s[starSi..];
      GreedyEnd(p[starPi + 1..pi], p[pi..], s[starSi..]);
    }
  }

  /** The one-star-memory loop decides the backtracking relation, for every pattern and path. */
  method GlobMatchImpl(pattern: seq<Byte>, path: seq<Byte>) returns (matched: bool)
    ensures matched <==> Matches(pattern, path)
    decreases |pattern|, 2
  {
    ghost var answer := Matches(pattern, path);
    var pi: nat, si: nat := 0, 0;
    var starPi: int, starSi: nat := -1, 0;
    AttemptStarts(pattern, path);
    while si < |path|
      invariant InBounds(pattern, path, pi, si, starPi, starSi)
      invariant Attempt(pattern, path, pi, si, starPi, starSi, answer)
      decreases |pattern| - starPi, |path| - starSi, |path| - si
    {
      if pi < |pattern| && pattern[pi] == STAR {
        if pi + 1 < |pattern| && pattern[pi + 1] == STAR {
          matched := MatchDoubleStar(pattern, path, pi, si, starPi, starSi, answer);
          return;
        }
        AttemptMovesToStar(pattern, path, pi, si, starPi, starSi, answer);
        starPi := pi;
        starSi := si;
        pi := pi + 1;
      } else if pi < |pattern| && pattern[pi] == QUESTION && path[si] != SLASH {
        AttemptAdvances(pattern, path, pi, si, starPi, starSi, answer);
        pi := pi + 1;
        si := si + 1;
      } else if pi < |pattern| && pattern[pi] == path[si] {
        AttemptAdvances(pattern, path, pi, si, starPi, starSi, answer);
        pi := pi + 1;
        si := si + 1;
      } else if starPi != -1 {
        AttemptBacktracks(pattern, path, pi, si, starPi, starSi, answer);
        if path[starSi] == SLASH {
          return false;
        }
        starSi := starSi + 1;
        si := starSi;
        pi := starPi + 1;
      } else {
        AttemptFails(pattern, path, pi, si, starSi, answer);
        return false;
      }
    }
    AttemptAtEnd(pattern, path, pi, starPi, starSi, answer);
    matched := OnlyStarsLeft(pattern, pi);
  }

  /** `**` at `pi`: try the rest of the pattern at every later position. */
  method MatchDoubleStar(pattern: seq<Byte>, path: seq<Byte>, pi: nat, si: nat,
                         ghost starPi: int, ghost starSi: nat, ghost answer: bool) returns (matched: bool)
    requires Attempt(pattern, path, pi, si, starPi, starSi, answer)
    requires pi + 1 < |pattern| && si < |path| && pattern[pi] == STAR && pattern[pi + 1] == STAR
    ensures matched <==> answer
    decreases |pattern|, 1
  {
    AttemptAtStar(pattern, path, pi, si, starPi, starSi, answer);
    var next := pi + 2;
    if next < |pattern| && pattern[next] == SLASH {
      next := next + 1;
    }
    assert AfterDoubleStar(pattern[pi..]) == pattern[next..];
    matched := MatchSomeSuffix(pattern, path, next, si);
  }

  method MatchSomeSuffix(pattern: seq<Byte>, path: seq<Byte>, next: nat, si: nat) returns (matched: bool)
    requires 0 < next <= |pattern| && si <= |path|
    ensures matched <==> MatchesSomeSuffix(pattern[next..], path[si..])
    decreases |pattern|, 0
  {
    ghost var rest := path[si..];
    if next == |pattern| {
      assert Matches(pattern[next..], rest[|rest|..]);
      return true;
    }
    for i := si to |path| + 1
      invariant forall j :: si <= j < i ==> !Matches(pattern[next..], path[j..])
    {
      var here := GlobMatchImpl(pattern[next..], path[i..]);
      if here {
        assert rest[i - si..] == path[i..];
        return true;
      }
    }
    forall j | 0 <= j <= |rest| ensures !Matches(pattern[next..], rest[j..]) {
      assert rest[j..] == path[si + j..];
    }
    return false;
  }

  method OnlyStarsLeft(pattern: seq<Byte>, from: nat) returns (only: bool)
    requires from <= |pattern|
    ensures only <==> AllStars(pattern[from..])
  {
    var pi := from;
    while pi < |pattern| && pattern[pi] == STAR
      invariant from <= pi <= |pattern|
      invariant AllStars(pattern[from..pi])
    {
      assert pattern[from..pi + 1] == pattern[from..pi] + [STAR];
      pi := pi + 1;
    }
    only := pi == |pattern|;
    if only {
      assert pattern[from..pi] == pattern[from..];
    } else {
      assert pattern[from..][pi - from] == pattern[pi];
    }
  }

  // ----- What a match says about a path -----

  function Slashes(s: seq<Byte>): (n: nat) {
    if s == [] then 0 else (if s[0] == SLASH then 1 else 0) + Slashes(s[1..])
  }

  predicate NoDoubleStar(p: seq<Byte>) {
    forall i :: 0 <= i < |p| - 1 ==> !(p[i] == STAR && p[i + 1] == STAR)
  }

  lemma {:induction false} SlashesDropRun(s: seq<Byte>, k: nat)
    requires k <= |s| && NoSlash(s[..k])
    ensures Slashes(s) == Slashes(s[k..])
  {
    if k > 0 {
      assert s[..k][0] == s[0];
      assert s[1..][k - 1..] == s[k..] && s[1..][..k - 1] == s[..k][1..];
      SlashesDropRun(s[1..], k - 1);
    } else {
      assert s[0..] == s;
    }
  }

  /** Without `**` a pattern never crosses a directory: path and pattern have equally many `/`. */
  lemma {:induction false} SameDepth(p: seq<Byte>, s: seq<Byte>)
    requires NoDoubleStar(p) && Matches(p, s)
    ensures Slashes(p) == Slashes(s)
    decreases |p|
  {
    if s == [] {
      SlashesDropRun(p, |p|);
    } else if p[0] == STAR {
      assert !DoubleStar(p);
      assert MatchesAfterRun(p[1..], s);
      var k :| 0 <= k <= |s| && NoSlash(s[..k]) && Matches(p[1..], s[k..]);
      SameDepth(p[1..], s[k..]);
      SlashesDropRun(s, k);
    } else {
      SameDepth(p[1..], s[1..]);
    }
  }

  /** A pattern without stars and `?` matches exactly itself. */
  lemma LiteralMatch(p: seq<Byte>, s: seq<Byte>)
    requires forall i :: 0 <= i < |p| ==> p[i] != STAR && p[i] != QUESTION
    ensures Matches(p, s) <==> p == s
  {
    assert p + [] == p;
    SegmentPeel(p, [], s);
    if |p| == |s| {
      assert s[|p|..] == [] && s[..|p|] == s;
    }
  }

  /** `**` in front of a pattern matches the path whenever the pattern matches some suffix of
      it, except that a trailing `/` of the pair blocks the empty path. */
  lemma DoubleStarPrefix(rest: seq<Byte>, s: seq<Byte>)
    ensures Matches([STAR, STAR, SLASH] + rest, s) <==>
            s != [] && MatchesSomeSuffix(rest, s)
  {
    var p := [STAR, STAR, SLASH] + rest;
    assert p[2] == SLASH && p[3..] == rest;
    assert AfterDoubleStar(p) == rest;
  }

  /** What the first byte of a pattern asks of the path: `?` one byte that is no slash, any other byte
      but a star itself. */
  lemma FirstByteMeans(first: Byte, rest: seq<Byte>, s: seq<Byte>)
    requires first != STAR
    ensures Matches([first] + rest, s) <==>
            && s != [] && (if first == '?' as int then s[0] != '/' as int else s[0] == first)
            && Matches(rest, s[1..])
  {
    var p := [first] + rest;
    assert p[0] == first && p[1..] == rest;
  }

  /** The rest matches after `k` bytes, none of them a slash. */
  ghost predicate MatchesAfter(rest: seq<Byte>, s: seq<Byte>, k: nat) {
    k <= |s| && (forall i :: 0 <= i < k ==> s[i] != '/' as int) && Matches(rest, s[k..])
  }

  /** A single star stands for any run without a slash, the empty one included. */
  lemma SingleStarMeans(rest: seq<Byte>, s: seq<Byte>)
    requires rest != [] ==> rest[0] != STAR
    ensures Matches([STAR] + rest, s) <==> exists k: nat :: MatchesAfter(rest, s, k)
  {
    var p: seq<Byte> := [STAR] + rest;
    assert p[0] == STAR && p[1..] == rest;
    if s == [] {
      assert AllStars(p) <==> AllStars(rest);
      assert s[0..] == [];
      assert MatchesAfter(rest, s, 0) <==> AllStars(rest);
    } else if MatchesAfterRun(rest, s) {
      var k: nat :| k <= |s| && NoSlash(s[..k]) && Matches(rest, s[k..]);
      assert forall i :: 0 <= i < k ==> s[..k][i] == s[i];
      assert MatchesAfter(rest, s, k);
    } else {
      forall k: nat ensures !MatchesAfter(rest, s, k) {
        assert MatchesAfter(rest, s, k) ==> NoSlash(s[..k]);
      }
    }
  }
}
