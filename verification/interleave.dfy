/** `interleave_lists` (src/utils.py): a round-robin merge of several lists
    through `zip_longest(*lists, fillvalue=None)`, dropping every `None`,
    whether it is a fill value or an element of a list. */
module Interleave {
  import opened Wrappers

  /** What list `l` contributes to round `r` once the `None`s are filtered
      out: its element `r`, if it has one and that element is not `None`. */
  function Cell<T>(l: seq<Option<T>>, r: nat): (c: seq<T>)
    ensures |c| <= 1
  {
    if r < |l| && l[r].Some? then [l[r].value] else []
  }

  /** Whether element `r` of list `i` exists and is not `None`. */
  predicate Present<T>(lists: seq<seq<Option<T>>>, i: nat, r: nat)
  {
    i < |lists| && r < |lists[i]| && lists[i][r].Some?
  }

  /** Round `r` (one tuple of `zip_longest`, filtered) restricted to the first `n` lists. */
  function RoundOf<T>(lists: seq<seq<Option<T>>>, n: nat, r: nat): (round: seq<T>)
    requires n <= |lists|
  {
    if n == 0 then [] else RoundOf(lists, n - 1, r) + Cell(lists[n - 1], r)
  }

  /** The first `m` rounds, one after the other, restricted to the first `n` lists. */
  function RoundsOf<T>(lists: seq<seq<Option<T>>>, n: nat, m: nat): (items: seq<T>)
    requires n <= |lists|
  {
    if m == 0 then [] else RoundsOf(lists, n, m - 1) + RoundOf(lists, n, m - 1)
  }

  function Rounds<T>(lists: seq<seq<Option<T>>>, m: nat): (items: seq<T>)
  {
    RoundsOf(lists, |lists|, m)
  }

  /** The length of the longest of the first `n` lists. */
  function MaxLenOf<T>(lists: seq<seq<Option<T>>>, n: nat): (len: nat)
    requires n <= |lists|
  {
    if n == 0 then 0
    else
      var m := MaxLenOf(lists, n - 1);
      if |lists[n - 1]| > m then |lists[n - 1]| else m
  }

  /** The number of tuples `zip_longest` produces. */
  function MaxLen<T>(lists: seq<seq<Option<T>>>): (len: nat)
  {
    MaxLenOf(lists, |lists|)
  }

  /** The merge: every round in turn, each in list order. */
  function Interleave<T>(lists: seq<seq<Option<T>>>): (merged: seq<T>)
  {
    Rounds(lists, MaxLen(lists))
  }

  /** The non-`None` elements among the first `m` positions of a list, in order. */
  function ValuesUpTo<T>(l: seq<Option<T>>, m: nat): (vs: seq<T>)
  {
    if m == 0 then [] else ValuesUpTo(l, m - 1) + Cell(l, m - 1)
  }

  function Values<T>(l: seq<Option<T>>): (vs: seq<T>)
  {
    ValuesUpTo(l, |l|)
  }

  /** The number of `None` elements among the first `m` positions of a list. */
  function NonesUpTo<T>(l: seq<Option<T>>, m: nat): (count: nat)
    requires m <= |l|
  {
    if m == 0 then 0 else NonesUpTo(l, m - 1) + (if l[m - 1].None? then 1 else 0)
  }

  function Nones<T>(l: seq<Option<T>>): (count: nat)
  {
    NonesUpTo(l, |l|)
  }

  /** The number of non-`None` elements among the first `m` positions of the first `n` lists. */
  function PresentOf<T>(lists: seq<seq<Option<T>>>, n: nat, m: nat): (count: nat)
    requires n <= |lists|
  {
    if n == 0 then 0 else PresentOf(lists, n - 1, m) + |ValuesUpTo(lists[n - 1], m)|
  }

  /** The total number of elements of the first `n` lists, `None`s included. */
  function TotalLengthOf<T>(lists: seq<seq<Option<T>>>, n: nat): (total: nat)
    requires n <= |lists|
  {
    if n == 0 then 0 else TotalLengthOf(lists, n - 1) + |lists[n - 1]|
  }

  function TotalLength<T>(lists: seq<seq<Option<T>>>): (total: nat)
  {
    TotalLengthOf(lists, |lists|)
  }

  /** The total number of `None` elements of the first `n` lists. */
  function TotalNonesOf<T>(lists: seq<seq<Option<T>>>, n: nat): (total: nat)
    requires n <= |lists|
  {
    if n == 0 then 0 else TotalNonesOf(lists, n - 1) + Nones(lists[n - 1])
  }

  function TotalNones<T>(lists: seq<seq<Option<T>>>): (total: nat)
  {
    TotalNonesOf(lists, |lists|)
  }

  /** Where element `r` of list `i` lands in the merge: after all earlier
      rounds and after what the lists before `i` contribute to round `r`. */
  function Pos<T>(lists: seq<seq<Option<T>>>, i: nat, r: nat): (p: nat)
    requires i <= |lists|
  {
    |Rounds(lists, r)| + |RoundOf(lists, i, r)|
  }

  // ----- the number of rounds -----

  /** `zip_longest` produces as many tuples as the longest list is long. */
  lemma {:induction false} MaxLenOfIsLongest<T>(lists: seq<seq<Option<T>>>, n: nat)
    requires n <= |lists|
    ensures forall i :: 0 <= i < n ==> |lists[i]| <= MaxLenOf(lists, n)
    ensures MaxLenOf(lists, n) == 0 || exists i :: 0 <= i < n && |lists[i]| == MaxLenOf(lists, n)
  {
    if n > 0 {
      MaxLenOfIsLongest(lists, n - 1);
    }
  }

  // ----- prefixes -----

  lemma {:induction false} RoundOfPrefix<T>(lists: seq<seq<Option<T>>>, a: nat, b: nat, r: nat)
    requires a <= b <= |lists|
    ensures |RoundOf(lists, a, r)| <= |RoundOf(lists, b, r)|
    ensures RoundOf(lists, b, r)[..|RoundOf(lists, a, r)|] == RoundOf(lists, a, r)
    decreases b
  {
    if a < b {
      RoundOfPrefix(lists, a, b - 1, r);
      var s := RoundOf(lists, b - 1, r);
      assert (s + Cell(lists[b - 1], r))[..|s|] == s;
    }
  }

  lemma {:induction false} RoundsPrefix<T>(lists: seq<seq<Option<T>>>, a: nat, b: nat)
    requires a <= b
    ensures |Rounds(lists, a)| <= |Rounds(lists, b)|
    ensures Rounds(lists, b)[..|Rounds(lists, a)|] == Rounds(lists, a)
    decreases b
  {
    if a < b {
      RoundsPrefix(lists, a, b - 1);
      var s := Rounds(lists, b - 1);
      assert Rounds(lists, b) == s + RoundOf(lists, |lists|, b - 1);
      assert (s + RoundOf(lists, |lists|, b - 1))[..|s|] == s;
    }
  }

  // ----- where each element goes -----

  lemma PosWithinRound<T>(lists: seq<seq<Option<T>>>, i: nat, r: nat)
    requires Present(lists, i, r)
    ensures Pos(lists, i, r) < |Rounds(lists, r + 1)|
    ensures Rounds(lists, r + 1)[Pos(lists, i, r)] == lists[i][r].value
  {
    var inRound := RoundOf(lists, i, r);
    assert RoundOf(lists, i + 1, r) == inRound + [lists[i][r].value];
    RoundOfPrefix(lists, i + 1, |lists|, r);
    var round := RoundOf(lists, |lists|, r);
    assert round[|inRound|] == lists[i][r].value;
    assert Rounds(lists, r + 1) == Rounds(lists, r) + round;
  }

  /** Element `r` of list `i`, when it is not `None`, is at `Pos(lists, i, r)` in the merge. */
  lemma InterleaveAt<T>(lists: seq<seq<Option<T>>>, i: nat, r: nat)
    requires Present(lists, i, r)
    ensures Pos(lists, i, r) < |Interleave(lists)|
    ensures Interleave(lists)[Pos(lists, i, r)] == lists[i][r].value
  {
    PosWithinRound(lists, i, r);
    MaxLenOfIsLongest(lists, |lists|);
    RoundsPrefix(lists, r + 1, MaxLen(lists));
    assert Interleave(lists)[..|Rounds(lists, r + 1)|] == Rounds(lists, r + 1);
  }

  lemma {:induction false} RoundOfFrom<T>(lists: seq<seq<Option<T>>>, n: nat, r: nat, j: nat)
    requires n <= |lists|
    requires j < |RoundOf(lists, n, r)|
    ensures exists i :: 0 <= i < n && Present(lists, i, r) && |RoundOf(lists, i, r)| == j
  {
    var before := RoundOf(lists, n - 1, r);
    if j < |before| {
      RoundOfFrom(lists, n - 1, r, j);
    } else {
      assert Present(lists, n - 1, r) && |RoundOf(lists, n - 1, r)| == j;
    }
  }

  lemma {:induction false} RoundsFrom<T>(lists: seq<seq<Option<T>>>, m: nat, k: nat)
    requires k < |Rounds(lists, m)|
    ensures exists i, r :: 0 <= i < |lists| && 0 <= r < m && Present(lists, i, r) && Pos(lists, i, r) == k
  {
    var before := Rounds(lists, m - 1);
    assert Rounds(lists, m) == before + RoundOf(lists, |lists|, m - 1);
    if k < |before| {
      RoundsFrom(lists, m - 1, k);
    } else {
      RoundOfFrom(lists, |lists|, m - 1, k - |before|);
      var i :| 0 <= i < |lists| && Present(lists, i, m - 1) && |RoundOf(lists, i, m - 1)| == k - |before|;
      assert Pos(lists, i, m - 1) == k;
    }
  }

  /** Every position of the merge holds some non-`None` element `r` of some
      list `i`, namely the one `Pos` sends there. */
  lemma InterleaveFrom<T>(lists: seq<seq<Option<T>>>, k: nat)
    requires k < |Interleave(lists)|
    ensures exists i, r :: 0 <= i && 0 <= r && Present(lists, i, r) && Pos(lists, i, r) == k && Interleave(lists)[k] == lists[i][r].value
  {
    RoundsFrom(lists, MaxLen(lists), k);
    var i, r :| 0 <= i < |lists| && 0 <= r < MaxLen(lists) && Present(lists, i, r) && Pos(lists, i, r) == k;
    InterleaveAt(lists, i, r);
  }

  /** The merge keeps round-robin order: an element of an earlier round
      comes first, and within a round the lists keep their order. In
      particular every list keeps the order of its own elements, and
      different elements never land on the same position. */
  lemma PosOrder<T>(lists: seq<seq<Option<T>>>, i1: nat, r1: nat, i2: nat, r2: nat)
    requires Present(lists, i1, r1) && Present(lists, i2, r2)
    requires r1 < r2 || (r1 == r2 && i1 < i2)
    ensures Pos(lists, i1, r1) < Pos(lists, i2, r2)
  {
    if r1 < r2 {
      PosWithinRound(lists, i1, r1);
      RoundsPrefix(lists, r1 + 1, r2);
    } else {
      assert RoundOf(lists, i1 + 1, r1) == RoundOf(lists, i1, r1) + [lists[i1][r1].value];
      RoundOfPrefix(lists, i1 + 1, i2, r1);
    }
  }

  // ----- counting -----

  lemma {:induction false} RoundsOfNone<T>(lists: seq<seq<Option<T>>>, m: nat)
    ensures RoundsOf(lists, 0, m) == []
  {
    if m > 0 {
      RoundsOfNone(lists, m - 1);
    }
  }

  lemma {:induction false} RoundsOneMoreList<T>(lists: seq<seq<Option<T>>>, n: nat, m: nat)
    requires n < |lists|
    ensures |RoundsOf(lists, n + 1, m)| == |RoundsOf(lists, n, m)| + |ValuesUpTo(lists[n], m)|
  {
    if m > 0 {
      RoundsOneMoreList(lists, n, m - 1);
    }
  }

  lemma {:induction false} RoundsLength<T>(lists: seq<seq<Option<T>>>, n: nat, m: nat)
    requires n <= |lists|
    ensures |RoundsOf(lists, n, m)| == PresentOf(lists, n, m)
  {
    if n == 0 {
      RoundsOfNone(lists, m);
    } else {
      var before, here := |RoundsOf(lists, n - 1, m)|, |ValuesUpTo(lists[n - 1], m)|;
      assert before == PresentOf(lists, n - 1, m) by {
        RoundsLength(lists, n - 1, m);
      }
      assert |RoundsOf(lists, n, m)| == before + here by {
        RoundsOneMoreList(lists, n - 1, m);
      }
    }
  }

  lemma {:induction false} ValuesUpToCount<T>(l: seq<Option<T>>, m: nat)
    ensures |ValuesUpTo(l, m)| + NonesUpTo(l, if m < |l| then m else |l|) == (if m < |l| then m else |l|)
  {
    if m > 0 {
      ValuesUpToCount(l, m - 1);
    }
  }

  lemma {:induction false} PresentCount<T>(lists: seq<seq<Option<T>>>, n: nat, m: nat)
    requires n <= |lists|
    requires MaxLenOf(lists, n) <= m
    ensures PresentOf(lists, n, m) + TotalNonesOf(lists, n) == TotalLengthOf(lists, n)
  {
    if n > 0 {
      PresentCount(lists, n - 1, m);
      ValuesUpToCount(lists[n - 1], m);
    }
  }

  /** The merge is shorter than the lists together by exactly the number of
      `None` elements in them. */
  lemma InterleaveLength<T>(lists: seq<seq<Option<T>>>)
    ensures |Interleave(lists)| + TotalNones(lists) == TotalLength(lists)
  {
    RoundsLength(lists, |lists|, MaxLen(lists));
    PresentCount(lists, |lists|, MaxLen(lists));
  }

  lemma {:induction false} NonesUpToZero<T>(l: seq<Option<T>>, m: nat)
    requires m <= |l|
    ensures NonesUpTo(l, m) == 0 <==> forall k :: 0 <= k < m ==> l[k].Some?
  {
    if m > 0 {
      NonesUpToZero(l, m - 1);
    }
  }

  lemma {:induction false} TotalNonesZero<T>(lists: seq<seq<Option<T>>>, n: nat)
    requires n <= |lists|
    ensures TotalNonesOf(lists, n) == 0 <==>
      forall i, k :: 0 <= i < n && 0 <= k < |lists[i]| ==> lists[i][k].Some?
  {
    if n > 0 {
      TotalNonesZero(lists, n - 1);
      NonesUpToZero(lists[n - 1], |lists[n - 1]|);
    }
  }

  /** The merge has as many elements as the lists together exactly when no
      list holds a `None`. */
  lemma NoNonesNoLoss<T>(lists: seq<seq<Option<T>>>)
    ensures |Interleave(lists)| == TotalLength(lists) <==>
      forall i, k :: 0 <= i < |lists| && 0 <= k < |lists[i]| ==> lists[i][k].Some?
  {
    InterleaveLength(lists);
    TotalNonesZero(lists, |lists|);
  }

  // ----- one list -----

  lemma {:induction false} RoundsOfOne<T>(l: seq<Option<T>>, m: nat)
    ensures Rounds([l], m) == ValuesUpTo(l, m)
  {
    if m > 0 {
      RoundsOfOne(l, m - 1);
      assert [l][0] == l;
      assert RoundOf([l], 1, m - 1) == RoundOf([l], 0, m - 1) + Cell(l, m - 1);
      assert Rounds([l], m) == Rounds([l], m - 1) + RoundOf([l], 1, m - 1);
    }
  }

  lemma {:induction false} ValuesUpToAllSome<T>(l: seq<Option<T>>, m: nat)
    requires m <= |l|
    requires forall k :: 0 <= k < |l| ==> l[k].Some?
    ensures |ValuesUpTo(l, m)| == m
    ensures forall k :: 0 <= k < m ==> ValuesUpTo(l, m)[k] == l[k].value
  {
    if m > 0 {
      ValuesUpToAllSome(l, m - 1);
    }
  }

  /** A single list merges to itself without its `None`s; without `None`s it
      comes back element for element. */
  lemma InterleaveOne<T>(l: seq<Option<T>>)
    ensures Interleave([l]) == Values(l)
    ensures (forall k :: 0 <= k < |l| ==> l[k].Some?) ==>
      |Interleave([l])| == |l| && forall k :: 0 <= k < |l| ==> Interleave([l])[k] == l[k].value
  {
    assert [l][0] == l;
    assert MaxLenOf([l], 0) == 0;
    assert MaxLen([l]) == |l|;
    RoundsOfOne(l, |l|);
    if forall k :: 0 <= k < |l| ==> l[k].Some? {
      ValuesUpToAllSome(l, |l|);
    }
  }

  // ----- the guard of interleave_lists -----

  /** An element of the argument of `interleave_lists`: a list, or anything else. */
  datatype Entry<T> = List(items: seq<Option<T>>) | NotAList(value: T)

  /** The argument returned as it is, or the merged list. */
  datatype Merged<T> = Unchanged(entries: seq<Entry<T>>) | Merged(items: seq<T>)

  predicate AllLists<T>(entries: seq<Entry<T>>)
  {
    forall i :: 0 <= i < |entries| ==> entries[i].List?
  }

  function ListsOf<T>(entries: seq<Entry<T>>): (lists: seq<seq<Option<T>>>)
    requires AllLists(entries)
    ensures |lists| == |entries|
    ensures forall i :: 0 <= i < |entries| ==> lists[i] == entries[i].items
  {
    seq(|entries|, i requires 0 <= i < |entries| => entries[i].items)
  }

  /** `interleave_lists`: an empty argument, or one with an element that is
      not a list, comes back unchanged; otherwise the lists are merged. */
  function InterleaveLists<T(==)>(entries: seq<Entry<T>>): (m: Merged<T>)
    ensures m == Unchanged(entries) <==> |entries| == 0 || !AllLists(entries)
    ensures m.Merged? ==> AllLists(entries) && m.items == Interleave(ListsOf(entries))
  {
    if |entries| == 0 || !AllLists(entries) then Unchanged(entries)
    else Merged(Interleave(ListsOf(entries)))
  }
}
