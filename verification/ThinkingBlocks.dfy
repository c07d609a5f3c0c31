/** Removing thinking blocks from a text.

    Two passes each remove the blocks of one tag, first complete block first, until none is left.
    The second pass can join the parts of a tag of the first; the theorems say exactly when a block
    of the first tag is left in the end. */
module ThinkingBlocks {
  import opened Wrappers
  import opened TextScan

  datatype Tag = Tag(open: string, close: string)
  {
    function Both(): seq<string> {
      [open, close]
    }
  }

  const ANGLE := Tag("<think>", "</think>")
  const SQUARE := Tag("[THINK]", "[/THINK]")

  /** Somewhere the opening tag is followed by the closing tag. */
  ghost predicate HasBlock(text: string, tag: Tag) {
    OccurInOrder(text, tag.Both())
  }

  /** Remove the first opening tag up to the closing tag after it, again and again. */
  function StripTag(text: string, tag: Tag): string
    requires tag.open != ""
    decreases |text|
  {
    match Cut(text, tag.Both())
    case None => text
    case Some((pieces, rest)) => StripTag(pieces[0] + rest, tag)
  }

  lemma {:induction false} StripTagEnds(text: string, tag: Tag)
    requires tag.open != ""
    ensures Cut(StripTag(text, tag), tag.Both()) == None
    decreases |text|
  {
    match Cut(text, tag.Both())
    case None =>
    case Some((pieces, rest)) => StripTagEnds(pieces[0] + rest, tag);
  }

  /** No complete block of the tag survives, and a text without one is left alone. */
  lemma StripTagLeavesNoBlock(text: string, tag: Tag)
    requires tag.open != ""
    ensures !HasBlock(StripTag(text, tag), tag)
    ensures !HasBlock(text, tag) ==> StripTag(text, tag) == text
  {
    StripTagEnds(text, tag);
    CutDecides(text, tag.Both());
    CutDecides(StripTag(text, tag), tag.Both());
  }

  /** A pass removes the first block, its tags included, and goes on with what stood around it. */
  lemma StripTagRemoves(before: string, body: string, after: string, tag: Tag)
    requires tag.open != "" && EndsFirst(before, tag.open) && EndsFirst(body, tag.close)
    ensures StripTag(before + tag.open + (body + tag.close + after), tag) == StripTag(before + after, tag)
  {
    var tags, pieces := tag.Both(), [before, body];
    assert pieces[1..] == [body] && tags[1..] == [tag.close] && [body][1..] == [] && [tag.close][1..] == [];
    assert Glue([body], [tag.close], after) == body + tag.close + after;
    GlueCuts(tags, pieces, after);
  }

  function StripThinking(text: string): string {
    StripTag(StripTag(text, ANGLE), SQUARE)
  }

  method StripBlocks(text: string, tag: Tag) returns (cleaned: string)
    requires tag.open != ""
    ensures cleaned == StripTag(text, tag)
  {
    cleaned := text;
    while true
      invariant StripTag(cleaned, tag) == StripTag(text, tag)
      decreases |cleaned|
    {
      var block := Cut(cleaned, tag.Both());
      if block.None? {
        return;
      }
      cleaned := block.value.0[0] + block.value.1;
    }
  }

  // ----- Blocks by position -----

  /** The opening tag stands at `i` and the closing tag at `j`, after it. */
  ghost predicate BlockAt(text: string, i: nat, j: nat, tag: Tag) {
    OccursAt(text, i, tag.open) && OccursAt(text, j, tag.close) && i + |tag.open| <= j
  }

  ghost predicate BlockSomewhere(text: string, tag: Tag) {
    exists i: nat, j: nat :: BlockAt(text, i, j, tag)
  }

  lemma OccursOnce(text: string, pat: string)
    ensures OccurInOrder(text, [pat]) <==> exists j: nat :: OccursAt(text, j, pat)
  {
    var one := [pat];
    assert one[0] == pat && one[1..] == [];
    if OccurInOrder(text, one) {
      var i: nat :| OccursAt(text, i, one[0]) && OccurInOrder(text[i + |one[0]|..], one[1..]);
    }
    if j: nat :| OccursAt(text, j, pat) {
      assert OccursAt(text, j, one[0]) && OccurInOrder(text[j + |pat|..], one[1..]);
    }
  }

  lemma HasBlockAt(text: string, tag: Tag)
    ensures HasBlock(text, tag) <==> BlockSomewhere(text, tag)
  {
    var n, tags := |tag.open|, tag.Both();
    assert tags[1..] == [tag.close];
    if HasBlock(text, tag) {
      var i: nat :| OccursAt(text, i, tag.open) && OccurInOrder(text[i + n..], tags[1..]);
      OccursOnce(text[i + n..], tag.close);
      var j: nat :| OccursAt(text[i + n..], j, tag.close);
      OccursShifted(text, i + n, j, tag.close);
      assert BlockAt(text, i, i + n + j, tag);
    }
    if BlockSomewhere(text, tag) {
      var i: nat, j: nat :| BlockAt(text, i, j, tag);
      OccursShifted(text, i + n, j - (i + n), tag.close);
      OccursOnce(text[i + n..], tag.close);
    }
  }

  // ----- One removal -----

  /** An occurrence of `pat` at `i` lies across position `n`. */
  predicate Crosses(i: nat, pat: string, n: nat) {
    i < n < i + |pat|
  }

  /** Where a position of `a + b` lies in `a + mid + b`. */
  function Before(i: nat, a: string, mid: string): nat {
    if i < |a| then i else i + |mid|
  }

  lemma UncrossedOccursBefore(a: string, mid: string, b: string, i: nat, pat: string)
    requires OccursAt(a + b, i, pat) && !Crosses(i, pat, |a|)
    ensures OccursAt(a + mid + b, Before(i, a, mid), pat)
  {
    var whole, j := a + mid + b, Before(i, a, mid);
    assert whole[j..j + |pat|] == (a + b)[i..i + |pat|];
  }

  /** Putting `a` and `b` together makes a block with a tag across the seam. */
  ghost predicate Joins(a: string, b: string, tag: Tag) {
    exists i: nat, j: nat ::
      BlockAt(a + b, i, j, tag) && (Crosses(i, tag.open, |a|) || Crosses(j, tag.close, |a|))
  }

  /** What stood between `a` and `b` is removed: a block appears exactly if a tag is joined that
      has its partner. */
  lemma RemovalJoins(a: string, mid: string, b: string, tag: Tag)
    requires !HasBlock(a + mid + b, tag)
    ensures HasBlock(a + b, tag) <==> Joins(a, b, tag)
  {
    HasBlockAt(a + b, tag);
    HasBlockAt(a + mid + b, tag);
    if BlockSomewhere(a + b, tag) && !Joins(a, b, tag) {
      var i: nat, j: nat :| BlockAt(a + b, i, j, tag);
      UncrossedOccursBefore(a, mid, b, i, tag.open);
      UncrossedOccursBefore(a, mid, b, j, tag.close);
      assert BlockAt(a + mid + b, Before(i, a, mid), Before(j, a, mid), tag);
    }
  }

  // ----- The removals of a pass -----

  /** No removal of `gone` blocks joins a tag of a block. */
  ghost predicate NeverJoins(text: string, gone: Tag, tag: Tag)
    requires gone.open != ""
    decreases |text|
  {
    match Cut(text, gone.Both())
    case None => true
    case Some((pieces, rest)) => !Joins(pieces[0], rest, tag) && NeverJoins(pieces[0] + rest, gone, tag)
  }

  /** No text on the way of the pass holds a block. */
  ghost predicate NeverHolds(text: string, gone: Tag, tag: Tag)
    requires gone.open != ""
    decreases |text|
  {
    && !HasBlock(text, tag)
    && match Cut(text, gone.Both())
       case None => true
       case Some((pieces, rest)) => NeverHolds(pieces[0] + rest, gone, tag)
  }

  lemma GlueOfTwo(x: string, y: string, d: string, e: string, rest: string)
    ensures Glue([x, y], [d, e], rest) == x + (d + y + e) + rest
  {
    assert [x, y][1..] == [y] && [d, e][1..] == [e] && [y][1..] == [] && [e][1..] == [];
    assert Glue([y], [e], rest) == y + e + rest;
  }

  /** A block that is cut out stands between what is left. */
  lemma CutOut(text: string, gone: Tag)
    requires Cut(text, gone.Both()).Some?
    ensures var (pieces, rest) := Cut(text, gone.Both()).value;
      text == pieces[0] + (gone.open + pieces[1] + gone.close) + rest
  {
    CutGlues(text, gone.Both());
    var (pieces, rest) := Cut(text, gone.Both()).value;
    assert pieces == [pieces[0], pieces[1]];
    GlueOfTwo(pieces[0], pieces[1], gone.open, gone.close, rest);
  }

  /** From a text without blocks, none appears on the way exactly if no removal joins a tag. */
  lemma {:induction false} NeverHoldsExactlyWhen(text: string, gone: Tag, tag: Tag)
    requires gone.open != "" && !HasBlock(text, tag)
    ensures NeverHolds(text, gone, tag) <==> NeverJoins(text, gone, tag)
    ensures NeverHolds(text, gone, tag) ==> !HasBlock(StripTag(text, gone), tag)
    decreases |text|
  {
    if Cut(text, gone.Both()).Some? {
      var (pieces, rest) := Cut(text, gone.Both()).value;
      CutOut(text, gone);
      RemovalJoins(pieces[0], gone.open + pieces[1] + gone.close, rest, tag);
      if !HasBlock(pieces[0] + rest, tag) {
        NeverHoldsExactlyWhen(pieces[0] + rest, gone, tag);
      }
    }
  }

  // ----- What is left in the end -----

  /** Where the characters that a pass leaves stood in the text. */
  function Kept(text: string, gone: Tag): seq<nat>
    requires gone.open != ""
    decreases |text|
  {
    match Cut(text, gone.Both())
    case None => seq(|text|, i requires 0 <= i < |text| => i)
    case Some((pieces, rest)) => Moved(Kept(pieces[0] + rest, gone), |pieces[0]|, |text| - |rest| - |pieces[0]|)
  }

  /** Positions from `n` on, moved by `shift`. */
  function Moved(positions: seq<nat>, n: nat, shift: nat): (moved: seq<nat>)
    ensures |moved| == |positions|
    ensures forall k :: 0 <= k < |moved| ==> moved[k] == if positions[k] < n then positions[k] else positions[k] + shift
  {
    seq(|positions|, k requires 0 <= k < |positions| => if positions[k] < n then positions[k] else positions[k] + shift)
  }

  /** `left` are the characters of `text` at `positions`, in order. */
  ghost predicate Picks(text: string, positions: seq<nat>, left: string) {
    && |positions| == |left|
    && (forall k :: 0 <= k < |left| ==> positions[k] < |text| && text[positions[k]] == left[k])
    && (forall k, l :: 0 <= k < l < |left| ==> positions[k] < positions[l])
  }

  lemma {:induction false} StripTagPicks(text: string, gone: Tag)
    requires gone.open != ""
    ensures Picks(text, Kept(text, gone), StripTag(text, gone))
    decreases |text|
  {
    if Cut(text, gone.Both()).Some? {
      var (pieces, rest) := Cut(text, gone.Both()).value;
      StripTagPicks(pieces[0] + rest, gone);
      CutOut(text, gone);
      PicksAround(pieces[0], gone.open + pieces[1] + gone.close, rest, Kept(pieces[0] + rest, gone), StripTag(text, gone));
    }
  }

  lemma PicksAround(a: string, mid: string, b: string, positions: seq<nat>, left: string)
    requires Picks(a + b, positions, left)
    ensures Picks(a + mid + b, Moved(positions, |a|, |mid|), left)
  {
    var moved := Moved(positions, |a|, |mid|);
    forall k | 0 <= k < |left| ensures moved[k] < |a + mid + b| && (a + mid + b)[moved[k]] == left[k] {
      assert (a + b)[positions[k]] == left[k];
    }
  }

  /** The `n` characters from `i` on did not stand together in the text. */
  ghost predicate Torn(positions: seq<nat>, i: nat, n: nat) {
    exists m :: i < m < i + n && m < |positions| && positions[m] != positions[i] + (m - i)
  }

  /** A tag that was not torn stood in the text already. */
  lemma WholeOccursBefore(text: string, positions: seq<nat>, left: string, i: nat, pat: string)
    requires Picks(text, positions, left) && OccursAt(left, i, pat) && pat != "" && !Torn(positions, i, |pat|)
    ensures OccursAt(text, positions[i], pat)
  {
    var at, last := positions[i], i + |pat| - 1;
    assert last > i ==> positions[last] == at + (last - i);
    forall k | 0 <= k < |pat| ensures text[at + k] == pat[k] {
      var m := i + k;
      assert m > i ==> positions[m] == at + (m - i);
      assert left[i..i + |pat|][k] == left[m];
    }
    assert text[at..at + |pat|] == pat;
  }

  lemma WholeBlockBefore(text: string, positions: seq<nat>, left: string, i: nat, j: nat, tag: Tag)
    requires Picks(text, positions, left) && BlockAt(left, i, j, tag) && tag.open != "" && tag.close != ""
    requires !Torn(positions, i, |tag.open|) && !Torn(positions, j, |tag.close|)
    ensures BlockAt(text, positions[i], positions[j], tag)
  {
    WholeOccursBefore(text, positions, left, i, tag.open);
    WholeOccursBefore(text, positions, left, j, tag.close);
    var last := |tag.open| - 1;
    assert last > 0 ==> positions[i + last] == positions[i] + last;
    assert positions[i + last] < positions[j];
  }

  /** A block is left one of whose tags did not stand together before the pass. */
  ghost predicate LeavesJoined(text: string, gone: Tag, tag: Tag)
    requires gone.open != ""
  {
    exists i: nat, j: nat ::
      && BlockAt(StripTag(text, gone), i, j, tag)
      && (Torn(Kept(text, gone), i, |tag.open|) || Torn(Kept(text, gone), j, |tag.close|))
  }

  /** From a text without blocks, a pass that removes another tag leaves a block exactly if it put
      one of the tags of such a block together. */
  lemma BlockLeftExactlyWhen(text: string, gone: Tag, tag: Tag)
    requires gone.open != "" && tag.open != "" && tag.close != "" && !HasBlock(text, tag)
    ensures HasBlock(StripTag(text, gone), tag) <==> LeavesJoined(text, gone, tag)
  {
    var positions, left := Kept(text, gone), StripTag(text, gone);
    StripTagPicks(text, gone);
    HasBlockAt(text, tag);
    HasBlockAt(left, tag);
    if BlockSomewhere(left, tag) {
      var i: nat, j: nat :| BlockAt(left, i, j, tag);
      if !Torn(positions, i, |tag.open|) && !Torn(positions, j, |tag.close|) {
        WholeBlockBefore(text, positions, left, i, j, tag);
      }
    }
  }

  /** After both passes no complete `[THINK]` block is left, and a `<think>` block exactly if the
      second pass put one of its tags together.  In particular there is none if no removal of the
      second pass joins a tag. */
  method StripThinkingBlocks(text: string) returns (cleaned: string)
    ensures cleaned == StripThinking(text)
    ensures !HasBlock(cleaned, SQUARE)
    ensures HasBlock(cleaned, ANGLE) <==> LeavesJoined(StripTag(text, ANGLE), SQUARE, ANGLE)
    ensures NeverJoins(StripTag(text, ANGLE), SQUARE, ANGLE) ==> !HasBlock(cleaned, ANGLE)
  {
    cleaned := StripBlocks(text, ANGLE);
    SecondPass(text, cleaned);
    cleaned := StripBlocks(cleaned, SQUARE);
  }

  lemma SecondPass(text: string, first: string)
    requires first == StripTag(text, ANGLE)
    ensures !HasBlock(StripTag(first, SQUARE), SQUARE)
    ensures HasBlock(StripTag(first, SQUARE), ANGLE) <==> LeavesJoined(first, SQUARE, ANGLE)
    ensures NeverJoins(first, SQUARE, ANGLE) ==> !HasBlock(StripTag(first, SQUARE), ANGLE)
  {
    StripTagLeavesNoBlock(text, ANGLE);
    StripTagLeavesNoBlock(first, SQUARE);
    NeverHoldsExactlyWhen(first, SQUARE, ANGLE);
    BlockLeftExactlyWhen(first, SQUARE, ANGLE);
  }

  // ----- A block that both passes leave -----

  const HALVES := "<thi[THINK][/THINK]nk>x</think>"
  const JOINED := "<think>x</think>"

  lemma LetterAt(text: string, i: nat, pat: string, k: nat)
    requires OccursAt(text, i, pat) && k < |pat|
    ensures i + k < |text| && text[i + k] == pat[k]
  {
    assert text[i..i + |pat|][k] == text[i + k];
  }

  lemma HalvesHoldNoTag()
    ensures forall i: nat :: !OccursAt(HALVES, i, "<think>")
  {
    assert HALVES[4] == '[' && HALVES[24] == '/';
    forall i: nat ensures !OccursAt(HALVES, i, "<think>") {
      if OccursAt(HALVES, i, "<think>") {
        LetterAt(HALVES, i, "<think>", 0);
        LetterAt(HALVES, i, "<think>", 1);
        LetterAt(HALVES, i, "<think>", 4);
      }
    }
  }

  /** Removing an empty block joins what stands around it. */
  lemma EmptyBlockJoins(a: string, b: string, gone: Tag)
    requires gone.open != "" && EndsFirst(a, gone.open) && !HasBlock(a + b, gone)
    ensures StripTag(a + gone.open + (gone.close + b), gone) == a + b
  {
    var tags, pieces := gone.Both(), [a, ""];
    assert pieces[1..] == [""] && tags[1..] == [gone.close] && [""][1..] == [] && [gone.close][1..] == [];
    assert Glue([""], [gone.close], b) == gone.close + b;
    GlueCuts(tags, pieces, b);
    StripTagLeavesNoBlock(a + b, gone);
  }

  lemma JoinedHoldsBlock()
    ensures HasBlock(JOINED, ANGLE)
  {
    var tags := ["<think>", "</think>"];
    assert OccursAt(JOINED, 0, "<think>");
    assert JOINED[7..] == "x</think>";
    assert JOINED[7..][1..9] == "</think>";
    assert OccursAt(JOINED[7..], 1, "</think>");
    assert tags[1..][0] == "</think>";
    assert OccurInOrder(JOINED[7..][1 + 8..], tags[1..][1..]);
    assert OccurInOrder(JOINED[7..], tags[1..]);
  }

  lemma JoinedHoldsNoOther()
    ensures EndsFirst("<thi", "[THINK]") && !HasBlock(JOINED, SQUARE)
  {
    forall i: nat ensures !OccursAt(JOINED, i, "[THINK]") {
      if OccursAt(JOINED, i, "[THINK]") {
        LetterAt(JOINED, i, "[THINK]", 0);
      }
    }
    forall i: nat | i < 4 ensures !OccursAt("<thi" + "[THINK]", i, "[THINK]") {
      if OccursAt("<thi" + "[THINK]", i, "[THINK]") {
        LetterAt("<thi" + "[THINK]", i, "[THINK]", 0);
      }
    }
  }

  lemma HalvesAndJoined()
    ensures "<thi" + "nk>x</think>" == JOINED
    ensures "<thi" + "[THINK]" + ("[/THINK]" + "nk>x</think>") == HALVES
  {
  }

  lemma SecondPassJoins()
    ensures StripTag(HALVES, SQUARE) == JOINED
  {
    HalvesAndJoined();
    JoinedHoldsNoOther();
    EmptyBlockJoins("<thi", "nk>x</think>", SQUARE);
  }

  /** The second pass can join the halves of a `<think>` tag, whose block then survives. */
  lemma ThinkBlockCanReappear()
    ensures HasBlock(StripThinking(HALVES), ANGLE)
  {
    HalvesHoldNoTag();
    assert Cut(HALVES, ["<think>", "</think>"]) == None;
    SecondPassJoins();
    JoinedHoldsBlock();
  }
}
