/** Searching text, and cutting it at delimiters that come round and round. */
module TextScan {
  import opened Wrappers

  // ----- Searching text -----

  predicate OccursAt(text: string, i: nat, pat: string) {
    i + |pat| <= |text| && text[i..i + |pat|] == pat
  }

  /** The first occurrence of `pat` at or after `from`. */
  function Find(text: string, from: nat, pat: string): (r: Option<nat>)
    requires from <= |text|
    ensures r.Some? ==> from <= r.value && OccursAt(text, r.value, pat)
    ensures forall i: nat :: from <= i && (r.Some? ==> i < r.value) ==> !OccursAt(text, i, pat)
    decreases |text| - from
  {
    if OccursAt(text, from, pat) then Some(from)
    else if from == |text| then None
    else Find(text, from + 1, pat)
  }

  predicate IsAsciiSpace(c: char) {
    c == ' ' || c == '\t' || c == '\n' || c == '\r' || c == 12 as char
  }

  predicate IsTrimmed(c: char) {
    IsAsciiSpace(c) || c == 11 as char
  }

  predicate IsIdentifier(c: char) {
    'a' <= c <= 'z' || 'A' <= c <= 'Z' || '0' <= c <= '9' || c == '_'
  }

  /** The end of the longest run of `p` characters that starts at `from`. */
  function RunAhead(text: string, from: nat, p: char -> bool): (n: nat)
    requires from <= |text|
    ensures from <= n <= |text| && forall i :: from <= i < n ==> p(text[i])
    ensures n < |text| ==> !p(text[n])
    decreases |text| - from
  {
    if from < |text| && p(text[from]) then RunAhead(text, from + 1, p) else from
  }

  /** The start of the longest run of `p` characters that ends at `end`. */
  function RunBack(text: string, end: nat, p: char -> bool): (n: nat)
    requires end <= |text|
    ensures n <= end && forall i :: n <= i < end ==> p(text[i])
    ensures n > 0 ==> !p(text[n - 1])
  {
    if end > 0 && p(text[end - 1]) then RunBack(text, end - 1, p) else end
  }

  function Trim(text: string, p: char -> bool): string {
    var from := RunAhead(text, 0, p);
    var rest := text[from..];
    rest[..RunBack(rest, |rest|, p)]
  }

  lemma {:induction false} RunAheadExactly(text: string, from: nat, p: char -> bool, n: nat)
    requires from <= |text|
    ensures n == RunAhead(text, from, p) <==>
            from <= n <= |text| && (forall i :: from <= i < n ==> p(text[i])) && (n < |text| ==> !p(text[n]))
  {
  }

  lemma {:induction false} RunBackExactly(text: string, end: nat, p: char -> bool, n: nat)
    requires end <= |text|
    ensures n == RunBack(text, end, p) <==>
            n <= end && (forall i :: n <= i < end ==> p(text[i])) && (n > 0 ==> !p(text[n - 1]))
  {
  }

  /** `p` characters, then a text that neither begins nor ends with one, then `p` characters. */
  ghost predicate TrimsTo(text: string, p: char -> bool, inner: string) {
    exists a: nat, b: nat ::
      && a <= b <= |text| && text[a..b] == inner
      && (forall i :: 0 <= i < a ==> p(text[i])) && (forall i :: b <= i < |text| ==> p(text[i]))
      && (a < b ==> !p(text[a]) && !p(text[b - 1]))
  }

  lemma TrimTrims(text: string, p: char -> bool)
    ensures TrimsTo(text, p, Trim(text, p))
  {
    var a := RunAhead(text, 0, p);
    var rest := text[a..];
    var b := a + RunBack(rest, |rest|, p);
    assert Trim(text, p) == text[a..b];
    forall i | b <= i < |text| ensures p(text[i]) {
      assert rest[i - a] == text[i];
    }
    assert a < b ==> rest[0] == text[a] && rest[b - a - 1] == text[b - 1];
  }

  /** There is only one such text. */
  lemma TrimExactly(text: string, p: char -> bool, inner: string)
    ensures inner == Trim(text, p) <==> TrimsTo(text, p, inner)
  {
    TrimTrims(text, p);
    if TrimsTo(text, p, inner) {
      var a: nat, b: nat :| && a <= b <= |text| && text[a..b] == inner
        && (forall i :: 0 <= i < a ==> p(text[i])) && (forall i :: b <= i < |text| ==> p(text[i]))
        && (a < b ==> !p(text[a]) && !p(text[b - 1]));
      var c: nat, d: nat :| && c <= d <= |text| && text[c..d] == Trim(text, p)
        && (forall i :: 0 <= i < c ==> p(text[i])) && (forall i :: d <= i < |text| ==> p(text[i]))
        && (c < d ==> !p(text[c]) && !p(text[d - 1]));
      assert a < b <==> c < d;
    }
  }

  // ----- Cutting at delimiters -----

  /** Appending `pat` to `s` makes its first occurrence. */
  ghost predicate EndsFirst(s: string, pat: string) {
    forall i: nat :: i < |s| ==> !OccursAt(s + pat, i, pat)
  }

  /** What stands before each of `delimiters`, found one after the other, and what follows. */
  function Cut(text: string, delimiters: seq<string>): (r: Option<(seq<string>, string)>)
    ensures r.Some? ==> |r.value.0| == |delimiters|
    ensures r.Some? && delimiters != [] ==> |r.value.0[0]| + |delimiters[0]| + |r.value.1| <= |text|
    decreases |delimiters|
  {
    if delimiters == [] then Some(([], text))
    else
      match Find(text, 0, delimiters[0])
      case None => None
      case Some(i) =>
        match Cut(text[i + |delimiters[0]|..], delimiters[1..])
        case None => None
        case Some((pieces, rest)) => Some(([text[..i]] + pieces, rest))
  }

  function Glue(pieces: seq<string>, delimiters: seq<string>, rest: string): string
    requires |pieces| == |delimiters|
  {
    if pieces == [] then rest else pieces[0] + delimiters[0] + Glue(pieces[1..], delimiters[1..], rest)
  }

  /** Every piece ends where its delimiter first occurs. */
  ghost predicate WellCut(pieces: seq<string>, delimiters: seq<string>) {
    |pieces| == |delimiters| && forall k :: 0 <= k < |pieces| ==> EndsFirst(pieces[k], delimiters[k])
  }

  /** The delimiters occur in this order, without overlap. */
  ghost predicate OccurInOrder(text: string, delimiters: seq<string>)
    decreases |delimiters|
  {
    || delimiters == []
    || exists i: nat :: && OccursAt(text, i, delimiters[0])
                        && OccurInOrder(text[i + |delimiters[0]|..], delimiters[1..])
  }

  lemma OccursInFront(before: string, pat: string, rest: string, i: nat)
    requires i < |before|
    ensures OccursAt(before + pat + rest, i, pat) <==> OccursAt(before + pat, i, pat)
  {
    assert (before + pat + rest)[i..i + |pat|] == (before + pat)[i..i + |pat|];
  }

  lemma FindSplits(text: string, pat: string)
    requires Find(text, 0, pat).Some?
    ensures var i := Find(text, 0, pat).value;
      text == text[..i] + pat + text[i + |pat|..] && EndsFirst(text[..i], pat)
  {
    var i := Find(text, 0, pat).value;
    var before, rest := text[..i], text[i + |pat|..];
    assert text == before + pat + rest;
    forall k: nat | k < |before| ensures !OccursAt(before + pat, k, pat) {
      OccursInFront(before, pat, rest, k);
    }
  }

  lemma FirstIsFound(text: string, pat: string, i: nat)
    requires OccursAt(text, i, pat) && forall k: nat :: k < i ==> !OccursAt(text, k, pat)
    ensures Find(text, 0, pat) == Some(i)
  {
  }

  lemma SplitFinds(before: string, pat: string, rest: string)
    requires EndsFirst(before, pat)
    ensures var text := before + pat + rest;
      Find(text, 0, pat) == Some(|before|) && text[..|before|] == before && text[|before| + |pat|..] == rest
  {
    var text := before + pat + rest;
    assert text[|before|..|before| + |pat|] == pat;
    forall k: nat | k < |before| ensures !OccursAt(text, k, pat) {
      OccursInFront(before, pat, rest, k);
    }
    FirstIsFound(text, pat, |before|);
  }

  lemma {:induction false} CutGlues(text: string, delimiters: seq<string>)
    requires Cut(text, delimiters).Some?
    ensures var (pieces, rest) := Cut(text, delimiters).value;
      WellCut(pieces, delimiters) && text == Glue(pieces, delimiters, rest)
    decreases |delimiters|
  {
    if delimiters != [] {
      var d := delimiters[0];
      var i := Find(text, 0, d).value;
      var after := text[i + |d|..];
      CutGlues(after, delimiters[1..]);
      FindSplits(text, d);
      var (pieces, rest) := Cut(text, delimiters).value;
      assert pieces[1..] == Cut(after, delimiters[1..]).value.0;
    }
  }

  lemma {:induction false} GlueCuts(delimiters: seq<string>, pieces: seq<string>, rest: string)
    requires WellCut(pieces, delimiters)
    ensures Cut(Glue(pieces, delimiters, rest), delimiters) == Some((pieces, rest))
    decreases |delimiters|
  {
    if delimiters != [] {
      var after := Glue(pieces[1..], delimiters[1..], rest);
      SplitFinds(pieces[0], delimiters[0], after);
      GlueCuts(delimiters[1..], pieces[1..], rest);
      assert pieces == [pieces[0]] + pieces[1..];
    }
  }

  lemma {:induction false} OccurLater(text: string, k: nat, delimiters: seq<string>)
    requires k <= |text| && OccurInOrder(text[k..], delimiters)
    ensures OccurInOrder(text, delimiters)
  {
    if delimiters != [] {
      var d := delimiters[0];
      var i: nat :| OccursAt(text[k..], i, d) && OccurInOrder(text[k..][i + |d|..], delimiters[1..]);
      assert text[k + i..k + i + |d|] == text[k..][i..i + |d|];
      assert text[k + i + |d|..] == text[k..][i + |d|..];
      assert OccursAt(text, k + i, d);
    }
  }

  lemma OccurAfter(text: string, j: nat, k: nat, delimiters: seq<string>)
    requires j <= k <= |text| && OccurInOrder(text[k..], delimiters)
    ensures OccurInOrder(text[j..], delimiters)
  {
    assert text[j..][k - j..] == text[k..];
    OccurLater(text[j..], k - j, delimiters);
  }

  lemma OccurAfterFirst(text: string, delimiters: seq<string>)
    requires delimiters != [] && OccurInOrder(text, delimiters)
    ensures var first := Find(text, 0, delimiters[0]);
      first.Some? && OccurInOrder(text[first.value + |delimiters[0]|..], delimiters[1..])
  {
    var d := delimiters[0];
    var i: nat :| OccursAt(text, i, d) && OccurInOrder(text[i + |d|..], delimiters[1..]);
    OccurAfter(text, Find(text, 0, d).value + |d|, i + |d|, delimiters[1..]);
  }

  /** Taking the first occurrence each time misses nothing. */
  lemma {:induction false} CutDecides(text: string, delimiters: seq<string>)
    ensures Cut(text, delimiters).Some? <==> OccurInOrder(text, delimiters)
    decreases |delimiters|
  {
    if delimiters != [] {
      var first := Find(text, 0, delimiters[0]);
      if first.Some? {
        CutDecides(text[first.value + |delimiters[0]|..], delimiters[1..]);
      }
      if OccurInOrder(text, delimiters) {
        OccurAfterFirst(text, delimiters);
      }
    }
  }

  lemma {:induction false} GlueOneMore(pieces: seq<string>, delimiters: seq<string>, piece: string, d: string, rest: string)
    requires |pieces| == |delimiters|
    ensures Glue(pieces + [piece], delimiters + [d], rest) == Glue(pieces, delimiters, piece + d + rest)
  {
    if pieces == [] {
      assert pieces + [piece] == [piece] && delimiters + [d] == [d];
      assert Glue([piece][1..], [d][1..], rest) == rest;
    } else {
      assert (pieces + [piece])[1..] == pieces[1..] + [piece] && (delimiters + [d])[1..] == delimiters[1..] + [d];
      GlueOneMore(pieces[1..], delimiters[1..], piece, d, rest);
    }
  }

  /** One more delimiter is looked for in what is left. */
  lemma CutOneMore(text: string, delimiters: seq<string>, d: string)
    requires Cut(text, delimiters).Some? && Find(Cut(text, delimiters).value.1, 0, d).Some?
    ensures var (pieces, rest) := Cut(text, delimiters).value;
      var i := Find(rest, 0, d).value;
      Cut(text, delimiters + [d]) == Some((pieces + [rest[..i]], rest[i + |d|..]))
  {
    var (pieces, rest) := Cut(text, delimiters).value;
    var i := Find(rest, 0, d).value;
    CutGlues(text, delimiters);
    FindSplits(rest, d);
    GlueOneMore(pieces, delimiters, rest[..i], d, rest[i + |d|..]);
    GlueCuts(delimiters + [d], pieces + [rest[..i]], rest[i + |d|..]);
  }

  /** And only there. */
  lemma CutOneLess(text: string, delimiters: seq<string>, d: string)
    requires Cut(text, delimiters + [d]).Some?
    ensures Cut(text, delimiters).Some? && Find(Cut(text, delimiters).value.1, 0, d).Some?
  {
    var (pieces, rest) := Cut(text, delimiters + [d]).value;
    var n := |delimiters|;
    CutGlues(text, delimiters + [d]);
    assert pieces == pieces[..n] + [pieces[n]];
    GlueOneMore(pieces[..n], delimiters, pieces[n], d, rest);
    assert WellCut(pieces[..n], delimiters) && EndsFirst(pieces[n], (delimiters + [d])[n]);
    GlueCuts(delimiters, pieces[..n], pieces[n] + d + rest);
    SplitFinds(pieces[n], d, rest);
  }

  lemma GlueFromFirst(pieces: seq<string>, delimiters: seq<string>, rest: string)
    requires WellCut(pieces, delimiters) && pieces != []
    ensures var first := [""] + pieces[1..];
      && WellCut(first, delimiters)
      && Glue(pieces, delimiters, rest)[|pieces[0]|..] == Glue(first, delimiters, rest)
  {
    var first := [""] + pieces[1..];
    assert first[1..] == pieces[1..];
    forall k | 0 <= k < |first| ensures EndsFirst(first[k], delimiters[k]) {
      assert k > 0 ==> first[k] == pieces[k];
    }
  }

  /** Cutting may as well start where the first delimiter occurs. */
  lemma CutFromFirst(text: string, delimiters: seq<string>)
    requires Cut(text, delimiters).Some? && delimiters != []
    ensures var (pieces, rest) := Cut(text, delimiters).value;
      && |pieces[0]| <= |text| && pieces[0] == text[..|pieces[0]|] && Find(text, 0, delimiters[0]) == Some(|pieces[0]|)
      && Cut(text[|pieces[0]|..], delimiters) == Some(([""] + pieces[1..], rest))
  {
    var (pieces, rest) := Cut(text, delimiters).value;
    CutGlues(text, delimiters);
    GlueFromFirst(pieces, delimiters, rest);
    GlueCuts(delimiters, [""] + pieces[1..], rest);
  }

  lemma OccursShifted(text: string, k: nat, i: nat, pat: string)
    requires k <= |text|
    ensures OccursAt(text[k..], i, pat) <==> OccursAt(text, k + i, pat)
  {
    if i + |pat| <= |text| - k {
      assert text[k..][i..i + |pat|] == text[k + i..k + i + |pat|];
    }
  }

  lemma NotFoundLater(text: string, k: nat, pat: string)
    requires k <= |text| && Find(text, 0, pat) == None
    ensures Find(text[k..], 0, pat) == None
  {
    var later := Find(text[k..], 0, pat);
    if later.Some? {
      OccursShifted(text, k, later.value, pat);
    }
  }

  /** Without its last delimiter a text cannot be cut. */
  lemma {:induction false} CutNeedsLast(text: string, delimiters: seq<string>, d: string)
    requires Find(text, 0, d) == None
    ensures Cut(text, delimiters + [d]) == None
    decreases |delimiters|
  {
    if delimiters == [] {
      assert (delimiters + [d])[0] == d;
    } else {
      assert (delimiters + [d])[1..] == delimiters[1..] + [d] && (delimiters + [d])[0] == delimiters[0];
      var first := Find(text, 0, delimiters[0]);
      if first.Some? {
        var k := first.value + |delimiters[0]|;
        NotFoundLater(text, k, d);
        CutNeedsLast(text[k..], delimiters[1..], d);
      }
    }
  }

  // ----- Cutting again and again -----

  /** Blocks of pieces, each piece followed by its delimiter, and a tail. */
  function Assemble(blocks: seq<seq<string>>, delimiters: seq<string>, tail: string): string
    requires forall b :: b in blocks ==> |b| == |delimiters|
  {
    if blocks == [] then tail else Glue(blocks[0], delimiters, Assemble(blocks[1..], delimiters, tail))
  }

  /** The text is made of these blocks and this tail: every delimiter is the first one after the
      one before, and the tail holds no further block. */
  ghost predicate SplitsInto(text: string, delimiters: seq<string>, blocks: seq<seq<string>>, tail: string) {
    && (forall b :: b in blocks ==> |b| == |delimiters| && WellCut(b, delimiters))
    && text == Assemble(blocks, delimiters, tail)
    && !OccurInOrder(tail, delimiters)
  }

  function Split(text: string, delimiters: seq<string>): (r: (seq<seq<string>>, string))
    requires delimiters != [] && delimiters[0] != ""
    ensures forall b :: b in r.0 ==> |b| == |delimiters|
    decreases |text|
  {
    match Cut(text, delimiters)
    case None => ([], text)
    case Some((pieces, rest)) =>
      var (blocks, tail) := Split(rest, delimiters);
      ([pieces] + blocks, tail)
  }

  lemma {:induction false} SplitAssembles(text: string, delimiters: seq<string>)
    requires delimiters != [] && delimiters[0] != ""
    ensures var (blocks, tail) := Split(text, delimiters);
      SplitsInto(text, delimiters, blocks, tail)
    decreases |text|
  {
    CutDecides(text, delimiters);
    match Cut(text, delimiters)
    case None =>
    case Some((pieces, rest)) =>
      CutGlues(text, delimiters);
      SplitAssembles(rest, delimiters);
      var (blocks, tail) := Split(rest, delimiters);
      assert ([pieces] + blocks)[1..] == blocks;
  }

  lemma {:induction false} AssembledSplits(delimiters: seq<string>, blocks: seq<seq<string>>, tail: string)
    requires delimiters != [] && delimiters[0] != ""
    requires (forall b :: b in blocks ==> |b| == |delimiters| && WellCut(b, delimiters)) && !OccurInOrder(tail, delimiters)
    ensures Split(Assemble(blocks, delimiters, tail), delimiters) == (blocks, tail)
    decreases |blocks|
  {
    if blocks == [] {
      CutDecides(tail, delimiters);
    } else {
      var first, later := blocks[0], blocks[1..];
      assert blocks == [first] + later;
      AssembledSplits(delimiters, later, tail);
      GlueCuts(delimiters, first, Assemble(later, delimiters, tail));
    }
  }

  /** No other blocks and tail make up the text, so splitting inverts assembling. */
  lemma SplitIsUnique(text: string, delimiters: seq<string>, blocks: seq<seq<string>>, tail: string)
    requires delimiters != [] && delimiters[0] != ""
    ensures SplitsInto(text, delimiters, blocks, tail) <==> Split(text, delimiters) == (blocks, tail)
  {
    SplitAssembles(text, delimiters);
    if SplitsInto(text, delimiters, blocks, tail) {
      AssembledSplits(delimiters, blocks, tail);
    }
  }
}
