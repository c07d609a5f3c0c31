/** The stable sort that the source calls from its standard library, by its defining property. */
module StableSort {

  ghost predicate TotalPreorder<T(!new)>(leq: (T, T) -> bool) {
    && (forall a, b :: leq(a, b) || leq(b, a))
    && (forall a, b, c :: leq(a, b) && leq(b, c) ==> leq(a, c))
  }

  ghost predicate Sorted<T>(s: seq<T>, leq: (T, T) -> bool) {
    forall i, j :: 0 <= i < j < |s| ==> leq(s[i], s[j])
  }

  /** The elements of `s` that rank equal to `x`, in order. */
  function Peers<T>(s: seq<T>, x: T, leq: (T, T) -> bool): seq<T> {
    if s == [] then []
    else (if leq(s[0], x) && leq(x, s[0]) then [s[0]] else []) + Peers(s[1..], x, leq)
  }

  /** `t` is `s` sorted, with equally ranked elements in their original order. */
  ghost predicate StablySorted<T(!new)>(s: seq<T>, t: seq<T>, leq: (T, T) -> bool) {
    Sorted(t, leq) && multiset(t) == multiset(s) && forall x :: Peers(t, x, leq) == Peers(s, x, leq)
  }

  /** `x` behind everything that does not rank after it. */
  function Insert<T>(s: seq<T>, x: T, leq: (T, T) -> bool): seq<T> {
    if s == [] || !leq(s[0], x) then [x] + s else [s[0]] + Insert(s[1..], x, leq)
  }

  function Sort<T>(s: seq<T>, leq: (T, T) -> bool): seq<T> {
    if s == [] then [] else Insert(Sort(s[..|s| - 1], leq), s[|s| - 1], leq)
  }

  lemma {:induction false} InsertAdds<T>(s: seq<T>, x: T, leq: (T, T) -> bool)
    ensures multiset(Insert(s, x, leq)) == multiset(s) + multiset{x}
  {
    if s != [] && leq(s[0], x) {
      InsertAdds(s[1..], x, leq);
      assert s == [s[0]] + s[1..];
    }
  }

  lemma {:induction false} InsertKeepsSorted<T(!new)>(s: seq<T>, x: T, leq: (T, T) -> bool)
    requires TotalPreorder(leq) && Sorted(s, leq)
    ensures Sorted(Insert(s, x, leq), leq)
  {
    if s == [] || !leq(s[0], x) {
      assert forall i :: 0 <= i < |s| ==> leq(x, s[i]);
    } else {
      var rest := Insert(s[1..], x, leq);
      InsertKeepsSorted(s[1..], x, leq);
      InsertAdds(s[1..], x, leq);
      forall i | 0 <= i < |rest| ensures leq(s[0], rest[i]) {
        assert rest[i] in multiset(rest);
        assert rest[i] == x || rest[i] in s[1..];
      }
    }
  }

  lemma {:induction false} PeersConcat<T>(a: seq<T>, b: seq<T>, x: T, leq: (T, T) -> bool)
    ensures Peers(a + b, x, leq) == Peers(a, x, leq) + Peers(b, x, leq)
  {
    if a == [] {
      assert a + b == b;
    } else {
      assert (a + b)[1..] == a[1..] + b;
      PeersConcat(a[1..], b, x, leq);
    }
  }

  /** `a` and `b` rank equal. */
  predicate Tie<T>(a: T, b: T, leq: (T, T) -> bool) {
    leq(a, b) && leq(b, a)
  }

  lemma {:induction false} NoPeers<T>(s: seq<T>, x: T, leq: (T, T) -> bool)
    requires forall i :: 0 <= i < |s| ==> !Tie(s[i], x, leq)
    ensures Peers(s, x, leq) == []
  {
    if s != [] {
      assert !Tie(s[0], x, leq);
      NoPeers(s[1..], x, leq);
    }
  }

  lemma {:induction false} InsertIsStable<T(!new)>(s: seq<T>, x: T, y: T, leq: (T, T) -> bool)
    requires TotalPreorder(leq) && Sorted(s, leq)
    ensures Peers(Insert(s, x, leq), y, leq) == Peers(s + [x], y, leq)
  {
    if s == [] || !leq(s[0], x) {
      PeersConcat([x], s, y, leq);
      PeersConcat(s, [x], y, leq);
      if leq(x, y) && leq(y, x) {
        assert forall i :: 0 <= i < |s| ==> !leq(s[i], y);
        NoPeers(s, y, leq);
      }
    } else {
      InsertIsStable(s[1..], x, y, leq);
      assert ([s[0]] + Insert(s[1..], x, leq))[1..] == Insert(s[1..], x, leq);
      assert (s + [x])[1..] == s[1..] + [x];
    }
  }

  lemma {:induction false} SortIsStable<T(!new)>(s: seq<T>, leq: (T, T) -> bool)
    requires TotalPreorder(leq)
    ensures StablySorted(s, Sort(s, leq), leq)
  {
    if s != [] {
      var front, x := s[..|s| - 1], s[|s| - 1];
      SortIsStable(front, leq);
      assert s == front + [x];
      InsertAdds(Sort(front, leq), x, leq);
      InsertKeepsSorted(Sort(front, leq), x, leq);
      forall y ensures Peers(Sort(s, leq), y, leq) == Peers(s, y, leq) {
        InsertIsStable(Sort(front, leq), x, y, leq);
        PeersConcat(Sort(front, leq), [x], y, leq);
        PeersConcat(front, [x], y, leq);
      }
    }
  }

  lemma {:induction false} PeersMember<T>(s: seq<T>, x: T, leq: (T, T) -> bool)
    ensures forall y :: y in Peers(s, x, leq) ==> y in s && leq(y, x) && leq(x, y)
    ensures x in s && leq(x, x) ==> x in Peers(s, x, leq)
  {
    if s != [] {
      PeersMember(s[1..], x, leq);
    }
  }

  /** Order and peers determine a sorted sequence: every stable sort gives the same result. */
  lemma {:induction false} StableSortIsUnique<T(!new)>(a: seq<T>, b: seq<T>, leq: (T, T) -> bool)
    requires TotalPreorder(leq) && Sorted(a, leq) && Sorted(b, leq)
    requires forall x :: Peers(a, x, leq) == Peers(b, x, leq)
    ensures a == b
  {
    if a == [] {
      if b != [] {
        PeersMember(b, b[0], leq);
      }
    } else {
      HeadsAgree(a, b, leq);
      forall x ensures Peers(a[1..], x, leq) == Peers(b[1..], x, leq) {
        var own := if leq(a[0], x) && leq(x, a[0]) then [a[0]] else [];
        assert Peers(a, x, leq) == own + Peers(a[1..], x, leq);
        assert Peers(b, x, leq) == own + Peers(b[1..], x, leq);
        assert (own + Peers(a[1..], x, leq))[|own|..] == Peers(a[1..], x, leq);
        assert (own + Peers(b[1..], x, leq))[|own|..] == Peers(b[1..], x, leq);
      }
      StableSortIsUnique(a[1..], b[1..], leq);
      assert a == [a[0]] + a[1..] && b == [b[0]] + b[1..];
    }
  }

  lemma HeadsAgree<T(!new)>(a: seq<T>, b: seq<T>, leq: (T, T) -> bool)
    requires TotalPreorder(leq) && Sorted(a, leq) && Sorted(b, leq) && a != []
    requires forall x :: Peers(a, x, leq) == Peers(b, x, leq)
    ensures b != [] && a[0] == b[0]
  {
    PeersMember(a, a[0], leq);
    assert a[0] in Peers(b, a[0], leq);
    PeersMember(b, a[0], leq);
    PeersMember(b, b[0], leq);
    assert b[0] in Peers(a, b[0], leq);
    PeersMember(a, b[0], leq);
    assert leq(b[0], a[0]) && leq(a[0], b[0]);
    assert Peers(a, a[0], leq)[0] == a[0] && Peers(b, a[0], leq)[0] == b[0];
  }

  /** Sorting what is already sorted changes nothing. */
  lemma SortOfSorted<T(!new)>(s: seq<T>, leq: (T, T) -> bool)
    requires TotalPreorder(leq) && Sorted(s, leq)
    ensures Sort(s, leq) == s
  {
    SortIsStable(s, leq);
    StableSortIsUnique(Sort(s, leq), s, leq);
  }

  // ----- Truncation -----

  function Take<T>(s: seq<T>, k: nat): seq<T> {
    if |s| <= k then s else s[..k]
  }

  /** What fell off the end can never come back: inserting before or after truncation agrees. */
  lemma {:induction false} TakeInsert<T>(s: seq<T>, x: T, k: nat, leq: (T, T) -> bool)
    ensures Take(Insert(Take(s, k), x, leq), k) == Take(Insert(s, x, leq), k)
  {
    if |s| > k {
      if k == 0 {
      } else if !leq(s[0], x) {
        assert Take(s, k)[0] == s[0];
      } else {
        assert Take(s, k)[1..] == Take(s[1..], k - 1);
        TakeInsert(s[1..], x, k - 1, leq);
        assert Take(Insert(Take(s, k), x, leq), k) == [s[0]] + Take(Insert(Take(s[1..], k - 1), x, leq), k - 1);
        assert Take(Insert(s, x, leq), k) == [s[0]] + Take(Insert(s[1..], x, leq), k - 1);
      }
    }
  }

  /** Keeping only the best `k` after every arrival gives the best `k` of all arrivals. */
  lemma OnlineTopK<T(!new)>(pushed: seq<T>, x: T, k: nat, leq: (T, T) -> bool)
    requires TotalPreorder(leq)
    ensures Take(Sort(Take(Sort(pushed, leq), k) + [x], leq), k) == Take(Sort(pushed + [x], leq), k)
  {
    var all := Sort(pushed, leq);
    var kept := Take(all, k);
    SortIsStable(pushed, leq);
    assert Sorted(kept, leq);
    SortOfSorted(kept, leq);
    assert (kept + [x])[..|kept|] == kept && (pushed + [x])[..|pushed|] == pushed;
    TakeInsert(all, x, k, leq);
  }

  // ----- Replacing an element by one that ranks higher -----

  /** `s` without the first occurrence of `x`. */
  function Remove<T(==)>(s: seq<T>, x: T): seq<T> {
    if s == [] then [] else if s[0] == x then s[1..] else [s[0]] + Remove(s[1..], x)
  }

  lemma {:induction false} RemoveAt<T>(s: seq<T>, i: nat)
    requires i < |s| && forall j :: 0 <= j < i ==> s[j] != s[i]
    ensures Remove(s, s[i]) == s[..i] + s[i + 1..]
  {
    if i > 0 {
      RemoveAt(s[1..], i - 1);
      assert s[..i] == [s[0]] + s[1..][..i - 1] && s[1..][i..] == s[i + 1..];
    }
  }

  lemma {:induction false} RemoveTakesOne<T>(s: seq<T>, x: T)
    requires x in s
    ensures multiset(Remove(s, x)) + multiset{x} == multiset(s)
  {
    assert s == [s[0]] + s[1..];
    if s[0] != x {
      RemoveTakesOne(s[1..], x);
    }
  }

  lemma {:induction false} RemoveAbsent<T>(s: seq<T>, x: T)
    requires x !in s
    ensures Remove(s, x) == s
  {
    if s != [] {
      RemoveAbsent(s[1..], x);
    }
  }

  lemma {:induction false} PeersOfRemoved<T>(s: seq<T>, x: T, y: T, leq: (T, T) -> bool)
    ensures Peers(Remove(s, x), y, leq) == Remove(Peers(s, y, leq), x)
  {
    if s != [] {
      var own, later := if leq(s[0], y) && leq(y, s[0]) then [s[0]] else [], Peers(s[1..], y, leq);
      assert Peers(s, y, leq) == own + later && [] + later == later;
      assert own != [] ==> (own + later)[1..] == later;
      if s[0] == x {
        if own == [] {
          PeersMember(s[1..], y, leq);
          RemoveAbsent(later, x);
        }
      } else {
        PeersOfRemoved(s[1..], x, y, leq);
        assert ([s[0]] + Remove(s[1..], x))[1..] == Remove(s[1..], x);
        assert [] + Remove(later, x) == Remove(later, x);
        assert Remove(own + later, x) == own + Remove(later, x);
      }
    }
  }

  lemma {:induction false} RemoveKeepsSorted<T>(s: seq<T>, x: T, leq: (T, T) -> bool)
    requires Sorted(s, leq)
    ensures Sorted(Remove(s, x), leq) && forall y :: y in Remove(s, x) ==> y in s
  {
    if s != [] {
      RemoveKeepsSorted(s[1..], x, leq);
      var rest := Remove(s[1..], x);
      forall i | 0 <= i < |rest| ensures leq(s[0], rest[i]) {
        assert rest[i] in s[1..];
      }
    }
  }

  /** Removing before or after sorting agrees. */
  lemma SortOfRemoved<T(!new)>(s: seq<T>, x: T, leq: (T, T) -> bool)
    requires TotalPreorder(leq)
    ensures Sort(Remove(s, x), leq) == Remove(Sort(s, leq), x)
  {
    SortIsStable(s, leq);
    SortIsStable(Remove(s, x), leq);
    RemoveKeepsSorted(Sort(s, leq), x, leq);
    forall y ensures Peers(Sort(Remove(s, x), leq), y, leq) == Peers(Remove(Sort(s, leq), x), y, leq) {
      PeersOfRemoved(s, x, y, leq);
      PeersOfRemoved(Sort(s, leq), x, y, leq);
    }
    StableSortIsUnique(Sort(Remove(s, x), leq), Remove(Sort(s, leq), x), leq);
  }

  /** Whatever ranks after `x` stays behind it. */
  lemma {:induction false} InsertInFront<T>(a: seq<T>, b: seq<T>, x: T, leq: (T, T) -> bool)
    requires b == [] || !leq(b[0], x)
    ensures Insert(a + b, x, leq) == Insert(a, x, leq) + b && |Insert(a, x, leq)| == |a| + 1
  {
    if a == [] {
      assert a + b == b;
    } else {
      assert (a + b)[1..] == a[1..] + b;
      InsertInFront(a[1..], b, x, leq);
    }
  }

  /** Moving `x` behind elements that do not tie with it leaves all peers in order. */
  lemma PeersOfMoved<T(!new)>(a: seq<T>, b: seq<T>, x: T, y: T, leq: (T, T) -> bool)
    requires TotalPreorder(leq) && forall j :: 0 <= j < |b| ==> !Tie(b[j], x, leq)
    ensures Peers(a + [x] + b, y, leq) == Peers(a + b + [x], y, leq)
  {
    PeersConcat(a + [x], b, y, leq);
    PeersConcat(a, [x], y, leq);
    PeersConcat(a + b, [x], y, leq);
    PeersConcat(a, b, y, leq);
    if leq(x, y) && leq(y, x) {
      assert forall j :: 0 <= j < |b| ==> !Tie(b[j], y, leq);
      NoPeers(b, y, leq);
    }
  }

  /** Sorting after an element was replaced puts the new one behind its peers, if it ties with
      nothing that stood behind the old one. */
  lemma SortOfReplaced<T(!new)>(s: seq<T>, i: nat, x: T, leq: (T, T) -> bool)
    requires TotalPreorder(leq) && Sorted(s, leq) && i < |s|
    requires forall j :: i < j < |s| ==> !Tie(s[j], x, leq)
    ensures Sort(s[i := x], leq) == Insert(s[..i] + s[i + 1..], x, leq)
  {
    var a, b := s[..i], s[i + 1..];
    assert s[i := x] == a + [x] + b;
    forall j | 0 <= j < |b| ensures !Tie(b[j], x, leq) {
      assert b[j] == s[i + 1 + j];
    }
    assert Sorted(a + b, leq);
    InsertKeepsSorted(a + b, x, leq);
    SortIsStable(s[i := x], leq);
    forall y ensures Peers(Sort(s[i := x], leq), y, leq) == Peers(Insert(a + b, x, leq), y, leq) {
      InsertIsStable(a + b, x, y, leq);
      PeersOfMoved(a, b, x, y, leq);
    }
    StableSortIsUnique(Sort(s[i := x], leq), Insert(a + b, x, leq), leq);
  }

  /** All arrivals, of which the new element is the last. */
  lemma SortOfRearrived<T(!new)>(all: seq<T>, i: nat, x: T, leq: (T, T) -> bool)
    requires TotalPreorder(leq) && i < |Sort(all, leq)|
    requires forall j :: 0 <= j < i ==> Sort(all, leq)[j] != Sort(all, leq)[i]
    ensures var sorted := Sort(all, leq);
      Sort(Remove(all, sorted[i]) + [x], leq) == Insert(sorted[..i] + sorted[i + 1..], x, leq)
  {
    var sorted := Sort(all, leq);
    var later := Remove(all, sorted[i]);
    SortOfRemoved(all, sorted[i], leq);
    RemoveAt(sorted, i);
    assert (later + [x])[..|later|] == later;
  }

  lemma TakeOfReplaced<T>(s: seq<T>, k: nat, i: nat, x: T, leq: (T, T) -> bool)
    requires i < |Take(s, k)| && (|s| > k ==> !leq(s[k], x))
    ensures var rest := Take(s, k)[..i] + Take(s, k)[i + 1..];
      Take(Insert(s[..i] + s[i + 1..], x, leq), k) == Insert(rest, x, leq)
  {
    var kept := Take(s, k);
    var rest, dropped := kept[..i] + kept[i + 1..], s[|kept|..];
    assert s[..i] + s[i + 1..] == rest + dropped;
    InsertInFront(rest, dropped, x, leq);
  }

  /** Replacing a kept element in place by `x` settles: `x` ranks before everything dropped and
      ties with nothing kept behind it. */
  ghost predicate Settles<T>(sorted: seq<T>, k: nat, i: nat, x: T, leq: (T, T) -> bool) {
    && (|sorted| > k ==> !leq(sorted[k], x))
    && forall j :: i < j < |Take(sorted, k)| ==> !Tie(sorted[j], x, leq)
  }

  /** Then sorting and cutting gives the best `k` of all, `x` counted as a new arrival. */
  lemma ReplacedTopK<T(!new)>(all: seq<T>, k: nat, i: nat, x: T, leq: (T, T) -> bool)
    requires TotalPreorder(leq) && Settles(Sort(all, leq), k, i, x, leq)
    requires var kept := Take(Sort(all, leq), k);
      i < |kept| && forall j :: 0 <= j < i ==> kept[j] != kept[i]
    ensures var kept := Take(Sort(all, leq), k);
      Take(Sort(kept[i := x], leq), k) == Take(Sort(Remove(all, kept[i]) + [x], leq), k)
  {
    var sorted := Sort(all, leq);
    var kept := Take(sorted, k);
    SortIsStable(all, leq);
    SortOfRearrived(all, i, x, leq);
    SortOfReplaced(kept, i, x, leq);
    TakeOfReplaced(sorted, k, i, x, leq);
    InsertInFront(kept[..i] + kept[i + 1..], [], x, leq);
  }

  /** A raised element settles. */
  lemma RaisedSettles<T(!new)>(sorted: seq<T>, k: nat, i: nat, x: T, leq: (T, T) -> bool)
    requires TotalPreorder(leq) && Sorted(sorted, leq) && i < |Take(sorted, k)| && !leq(sorted[i], x)
    ensures Settles(sorted, k, i, x, leq)
  {
    assert forall j :: i < j < |sorted| ==> leq(sorted[i], sorted[j]);
    forall j | i < j < |sorted| ensures !leq(sorted[j], x) {
      assert leq(sorted[i], sorted[j]);
    }
  }

  // ----- And only then -----

  lemma {:induction false} InsertBehind<T>(a: seq<T>, b: seq<T>, x: T, leq: (T, T) -> bool)
    requires forall j :: 0 <= j < |a| ==> leq(a[j], x)
    ensures Insert(a + b, x, leq) == a + Insert(b, x, leq)
  {
    if a == [] {
      assert a + b == b;
    } else {
      assert (a + b)[1..] == a[1..] + b;
      InsertBehind(a[1..], b, x, leq);
    }
  }

  /** If something dropped ranks before or equal to `x`, the best `k` do not hold `x`. */
  lemma DroppedComesBack<T(!new)>(s: seq<T>, k: nat, i: nat, x: T, leq: (T, T) -> bool)
    requires TotalPreorder(leq) && Sorted(s, leq) && i < k < |s| && leq(s[k], x)
    requires x !in s[..i] + s[i + 1..]
    ensures x !in Take(Insert(s[..i] + s[i + 1..], x, leq), k)
  {
    var front, back := s[..i] + s[i + 1..k + 1], s[k + 1..];
    assert s[..i] + s[i + 1..] == front + back;
    forall j | 0 <= j < |front| ensures leq(front[j], x) {
      var m := if j < i then j else j + 1;
      assert front[j] == s[m];
      assert m < k ==> leq(s[m], s[k]);
    }
    InsertBehind(front, back, x, leq);
    assert (front + Insert(back, x, leq))[..k] == front;
    assert forall y :: y in front ==> y in front + back;
  }

  lemma SortKeepsMembers<T(!new)>(s: seq<T>, x: T, leq: (T, T) -> bool)
    requires TotalPreorder(leq)
    ensures |Sort(s, leq)| == |s| && (x in Sort(s, leq) <==> x in s)
  {
    SortIsStable(s, leq);
    assert |multiset(Sort(s, leq))| == |multiset(s)|;
    assert x in Sort(s, leq) <==> x in multiset(Sort(s, leq));
  }

  /** If `x` ties with something behind, it stands before it when replaced in place, after it when
      it arrives last. */
  lemma TieIsReordered<T(!new)>(kept: seq<T>, i: nat, j: nat, x: T, leq: (T, T) -> bool)
    requires TotalPreorder(leq) && Sorted(kept, leq) && i < j < |kept| && Tie(kept[j], x, leq)
    requires x !in kept[..i] + kept[i + 1..]
    ensures Sort(kept[i := x], leq) != Insert(kept[..i] + kept[i + 1..], x, leq)
  {
    var a, b := kept[..i], kept[i + 1..];
    assert kept[i := x] == a + [x] + b && Sorted(a + b, leq);
    SortIsStable(kept[i := x], leq);
    InsertIsStable(a + b, x, x, leq);
    PeersConcat(a + [x], b, x, leq);
    PeersConcat(a, [x], x, leq);
    PeersConcat(a + b, [x], x, leq);
    PeersConcat(a, b, x, leq);
    var before, after := Peers(a, x, leq), Peers(b, x, leq);
    assert b[j - i - 1] == kept[j];
    PeerIsListed(b, j - i - 1, x, leq);
    PeersMember(b, x, leq);
    assert Peers([x], x, leq) == [x];
    assert (before + [x] + after)[|before|] == x;
    assert (before + after + [x])[|before|] == after[0] && after[0] in b;
  }

  lemma {:induction false} PeerIsListed<T>(s: seq<T>, i: nat, x: T, leq: (T, T) -> bool)
    requires i < |s| && Tie(s[i], x, leq)
    ensures Peers(s, x, leq) != []
  {
    if i > 0 {
      PeerIsListed(s[1..], i - 1, x, leq);
    }
  }

  lemma DroppedMakesDifference<T(!new)>(sorted: seq<T>, k: nat, i: nat, x: T, leq: (T, T) -> bool)
    requires TotalPreorder(leq) && Sorted(sorted, leq) && i < k < |sorted| && leq(sorted[k], x)
    requires x !in sorted[..i] + sorted[i + 1..]
    ensures Take(Sort(Take(sorted, k)[i := x], leq), k) != Take(Insert(sorted[..i] + sorted[i + 1..], x, leq), k)
  {
    var replaced := Take(sorted, k)[i := x];
    DroppedComesBack(sorted, k, i, x, leq);
    SortKeepsMembers(replaced, x, leq);
    assert replaced[i] == x;
  }

  lemma TieMakesDifference<T(!new)>(sorted: seq<T>, k: nat, i: nat, j: nat, x: T, leq: (T, T) -> bool)
    requires TotalPreorder(leq) && Sorted(sorted, leq) && i < j < |Take(sorted, k)| && Tie(sorted[j], x, leq)
    requires x !in sorted[..i] + sorted[i + 1..] && (|sorted| > k ==> !leq(sorted[k], x))
    ensures Take(Sort(Take(sorted, k)[i := x], leq), k) != Take(Insert(sorted[..i] + sorted[i + 1..], x, leq), k)
  {
    var kept := Take(sorted, k);
    var rest, others := kept[..i] + kept[i + 1..], sorted[..i] + sorted[i + 1..];
    assert forall y :: y in rest ==> y in others;
    TieIsReordered(kept, i, j, x, leq);
    TakeOfReplaced(sorted, k, i, x, leq);
    SortKeepsMembers(kept[i := x], x, leq);
  }

  lemma NotRearrived<T(!new)>(all: seq<T>, i: nat, x: T, leq: (T, T) -> bool)
    requires TotalPreorder(leq) && i < |Sort(all, leq)| && x !in Remove(all, Sort(all, leq)[i])
    requires forall j :: 0 <= j < i ==> Sort(all, leq)[j] != Sort(all, leq)[i]
    ensures x !in Sort(all, leq)[..i] + Sort(all, leq)[i + 1..]
  {
    var sorted := Sort(all, leq);
    SortOfRemoved(all, sorted[i], leq);
    SortKeepsMembers(Remove(all, sorted[i]), x, leq);
    RemoveAt(sorted, i);
  }

  /** For an element that has not arrived yet, replacing in place gives the best `k` exactly if it
      settles. */
  lemma ReplacedTopKExactlyWhen<T(!new)>(all: seq<T>, k: nat, i: nat, x: T, leq: (T, T) -> bool)
    requires TotalPreorder(leq)
    requires var kept := Take(Sort(all, leq), k);
      i < |kept| && (forall j :: 0 <= j < i ==> kept[j] != kept[i]) && x !in Remove(all, kept[i])
    ensures var kept := Take(Sort(all, leq), k);
      Take(Sort(kept[i := x], leq), k) == Take(Sort(Remove(all, kept[i]) + [x], leq), k) <==>
        Settles(Sort(all, leq), k, i, x, leq)
  {
    var sorted := Sort(all, leq);
    if Settles(sorted, k, i, x, leq) {
      ReplacedTopK(all, k, i, x, leq);
    } else {
      SortIsStable(all, leq);
      SortOfRearrived(all, i, x, leq);
      NotRearrived(all, i, x, leq);
      if |sorted| > k && leq(sorted[k], x) {
        DroppedMakesDifference(sorted, k, i, x, leq);
      } else {
        var j :| i < j < |Take(sorted, k)| && Tie(sorted[j], x, leq);
        TieMakesDifference(sorted, k, i, j, x, leq);
      }
    }
  }
}
