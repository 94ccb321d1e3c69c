/**
 * The leaderboard entry, its order (winnings, then level, both descending)
 * and the explicit top-down merge sort the leaderboard sorts with.
 */
module LeaderboardSort {
  import Text

  /** The GUI entry has no timestamp; it is kept here as "". */
  datatype Entry = Entry(playerName: string, winnings: int, level: int, timestamp: string, gamesPlayed: int)

  /** `operator<`: a comes first when it has more winnings, or equal winnings and a higher level. */
  predicate Less(a: Entry, b: Entry)
  {
    if a.winnings != b.winnings then a.winnings > b.winnings else a.level > b.level
  }

  /** `operator>` */
  predicate Greater(a: Entry, b: Entry)
  {
    Less(b, a)
  }

  /** b does not come strictly before a. */
  predicate Le(a: Entry, b: Entry)
  {
    !Less(b, a)
  }

  /** Less is a strict order; entries with equal winnings and level are incomparable; every two entries compare one way or the other. */
  lemma LessIsStrictWeakOrder(a: Entry, b: Entry, c: Entry)
    ensures !Less(a, a)
    ensures Less(a, b) && Less(b, c) ==> Less(a, c)
    ensures Less(a, b) ==> !Less(b, a)
    ensures (!Less(a, b) && !Less(b, a)) <==> (a.winnings == b.winnings && a.level == b.level)
    ensures Le(a, b) || Le(b, a)
    ensures Le(a, b) && Le(b, c) ==> Le(a, c)
    ensures Greater(a, b) <==> Less(b, a)
  {
  }

  /** No later element comes strictly before an earlier one. */
  predicate Sorted(s: seq<Entry>)
  {
    forall i, j :: 0 <= i < j < |s| ==> Le(s[i], s[j])
  }

  /** What `merge` writes back: the strict test takes the left element only when it is strictly first, so ties take the right one. */
  function Merge(a: seq<Entry>, b: seq<Entry>): (r: seq<Entry>)
    ensures |r| == |a| + |b|
    decreases |a| + |b|
  {
    if |a| == 0 then b
    else if |b| == 0 then a
    else if Less(a[0], b[0]) then [a[0]] + Merge(a[1..], b)
    else [b[0]] + Merge(a, b[1..])
  }

  lemma MergeCons(a: seq<Entry>, b: seq<Entry>)
    requires a != [] && b != []
    ensures Merge(a, b) == if Less(a[0], b[0]) then [a[0]] + Merge(a[1..], b) else [b[0]] + Merge(a, b[1..])
  {
  }

  lemma {:induction false} MergePermutes(a: seq<Entry>, b: seq<Entry>)
    ensures multiset(Merge(a, b)) == multiset(a) + multiset(b)
    decreases |a| + |b|
  {
    if a != [] && b != [] {
      if Less(a[0], b[0]) {
        var r := Merge(a[1..], b);
        MergePermutes(a[1..], b);
        assert Merge(a, b) == [a[0]] + r;
        assert multiset([a[0]] + r) == multiset{a[0]} + multiset(r);
        assert a == [a[0]] + a[1..];
        assert multiset(a) == multiset{a[0]} + multiset(a[1..]);
      } else {
        var r := Merge(a, b[1..]);
        MergePermutes(a, b[1..]);
        assert Merge(a, b) == [b[0]] + r;
        assert multiset([b[0]] + r) == multiset{b[0]} + multiset(r);
        assert b == [b[0]] + b[1..];
        assert multiset(b) == multiset{b[0]} + multiset(b[1..]);
      }
    }
  }

  /** The size of the left half for `mid = left + (right - left) / 2`. */
  function LeftSize(n: nat): nat
    requires n >= 2
    ensures 1 <= LeftSize(n) < n
  {
    (n - 1) / 2 + 1
  }

  /** What `mergeSort` does to a range: sort both halves, merge them. */
  function MSort(s: seq<Entry>): (r: seq<Entry>)
    ensures |r| == |s|
    decreases |s|
  {
    if |s| <= 1 then s
    else
      var m := LeftSize(|s|);
      Merge(MSort(s[..m]), MSort(s[m..]))
  }

  lemma {:induction false} MergeSorted(a: seq<Entry>, b: seq<Entry>)
    requires Sorted(a) && Sorted(b)
    ensures Sorted(Merge(a, b))
    decreases |a| + |b|
  {
    if a != [] && b != [] {
      var r := Merge(a, b);
      if Less(a[0], b[0]) {
        MergeSorted(a[1..], b);
        MergePermutes(a[1..], b);
        HeadFirst(a[0], Merge(a[1..], b), a[1..], b, a, b);
      } else {
        MergeSorted(a, b[1..]);
        MergePermutes(a, b[1..]);
        HeadFirst(b[0], Merge(a, b[1..]), a, b[1..], a, b);
      }
    }
  }

  /** Putting x in front of a sorted merge of the rests keeps it sorted when x is no later than both heads. */
  lemma HeadFirst(x: Entry, t: seq<Entry>, a: seq<Entry>, b: seq<Entry>, a0: seq<Entry>, b0: seq<Entry>)
    requires Sorted(t) && multiset(t) == multiset(a) + multiset(b)
    requires Sorted(a0) && Sorted(b0) && a0 != [] && b0 != []
    requires (a == a0[1..] || a == a0) && (b == b0[1..] || b == b0)
    requires Le(x, a0[0]) && Le(x, b0[0])
    ensures Sorted([x] + t)
  {
    forall y | y in t ensures Le(x, y) {
      assert y in multiset(t);
      if y in multiset(a) {
        var i :| 0 <= i < |a| && a[i] == y;
        assert y in a0;
        var k :| 0 <= k < |a0| && a0[k] == y;
        if k > 0 { assert Le(a0[0], a0[k]); }
      } else {
        assert y in multiset(b);
        var i :| 0 <= i < |b| && b[i] == y;
        assert y in b0;
        var k :| 0 <= k < |b0| && b0[k] == y;
        if k > 0 { assert Le(b0[0], b0[k]); }
      }
    }
    var r := [x] + t;
    forall i, j | 0 <= i < j < |r| ensures Le(r[i], r[j]) {
      if i == 0 {
        assert r[j] == t[j - 1] && r[j] in t;
      } else {
        assert r[i] == t[i - 1] && r[j] == t[j - 1];
      }
    }
  }

  /** `sortEntries` yields a sorted permutation of its input. */
  lemma {:induction false} MSortSortedPermutation(s: seq<Entry>)
    ensures Sorted(MSort(s))
    ensures multiset(MSort(s)) == multiset(s) && |MSort(s)| == |s|
    decreases |s|
  {
    if |s| > 1 {
      var m := LeftSize(|s|);
      MSortSortedPermutation(s[..m]);
      MSortSortedPermutation(s[m..]);
      MergeSorted(MSort(s[..m]), MSort(s[m..]));
      MergePermutes(MSort(s[..m]), MSort(s[m..]));
      Text.SplitAt(s, m);
    }
  }

  /** Not stable: two entries equal in winnings and level come out in swapped order. */
  lemma MSortSwapsTies(x: Entry, y: Entry)
    requires x.winnings == y.winnings && x.level == y.level
    ensures MSort([x, y]) == [y, x]
  {
    assert [x, y][..1] == [x] && [x, y][1..] == [y];
    assert Merge([x], [y]) == [y] + Merge([x], []);
  }

  // ---------------------------------------------------------------------
  // Sorting in place.

  /**
   * The first half of `merge`: the runs `left..mid` and `mid+1..right`
   * merged into `temp`. Nothing is written to the array before the copy
   * back, so the runs are read as the sequences they hold.
   */
  method MergedRuns(a: array<Entry>, left: nat, mid: nat, right: nat) returns (temp: seq<Entry>)
    requires left <= mid < right < a.Length
    ensures temp == Merge(a[left..mid + 1], a[mid + 1..right + 1])
  {
    temp := MergeLists(a[left..mid + 1], a[mid + 1..right + 1]);
  }

  /** The three loops of `merge` on the runs `x` and `y`. */
  method MergeLists(x: seq<Entry>, y: seq<Entry>) returns (temp: seq<Entry>)
    ensures temp == Merge(x, y)
  {
    temp := [];
    var i, j := 0, 0;
    ghost var rest := Merge(x, y);
    while i < |x| && j < |y|
      invariant 0 <= i <= |x| && 0 <= j <= |y|
      invariant rest == Merge(x[i..], y[j..])
      invariant temp + rest == Merge(x, y)
      decreases |x| - i + |y| - j
    {
      MergeStep(x, y, i, j);
      if Less(x[i], y[j]) {
        ghost var t := Merge(x[i + 1..], y[j..]);
        Text.Assoc(temp, [x[i]], t);
        temp, i, rest := temp + [x[i]], i + 1, t;
      } else {
        ghost var t := Merge(x[i..], y[j + 1..]);
        Text.Assoc(temp, [y[j]], t);
        temp, j, rest := temp + [y[j]], j + 1, t;
      }
    }
    RunsExhausted(x, y, i, j);
    Text.Assoc(temp, x[i..], y[j..]);
    temp := CopyRun(temp, x, i);
    temp := CopyRun(temp, y, j);
  }

  /** One turn of the first loop of `merge`, on the rests of both runs. */
  lemma MergeStep(x: seq<Entry>, y: seq<Entry>, i: nat, j: nat)
    requires i < |x| && j < |y|
    ensures Merge(x[i..], y[j..]) ==
      if Less(x[i], y[j]) then [x[i]] + Merge(x[i + 1..], y[j..]) else [y[j]] + Merge(x[i..], y[j + 1..])
  {
    assert x[i..][1..] == x[i + 1..] && y[j..][1..] == y[j + 1..];
  }

  /** Once one run is used up, the rest of the merge is the rest of the other run. */
  lemma RunsExhausted(x: seq<Entry>, y: seq<Entry>, p: nat, q: nat)
    requires p <= |x| && q <= |y| && (p == |x| || q == |y|)
    ensures Merge(x[p..], y[q..]) == x[p..] + y[q..]
  {
    if p == |x| {
      assert x[p..] == [];
    } else {
      assert y[q..] == [];
    }
  }

  /** A tail loop of `merge`: the rest of one run appended to `temp`. */
  method CopyRun(t: seq<Entry>, s: seq<Entry>, k: nat) returns (r: seq<Entry>)
    requires k <= |s|
    ensures r == t + s[k..]
  {
    r := t;
    var i := k;
    while i < |s|
      invariant k <= i <= |s|
      invariant r + s[i..] == t + s[k..]
    {
      assert s[i..] == [s[i]] + s[i + 1..];
      Text.Assoc(r, [s[i]], s[i + 1..]);
      r := r + [s[i]];
      i := i + 1;
    }
  }

  /** `merge(arr, left, mid, right)`: the two sorted runs are merged through `temp` and copied back. */
  method MergeRuns(a: array<Entry>, left: nat, mid: nat, right: nat)
    requires left <= mid < right < a.Length
    modifies a
    ensures a[left..right + 1] == Merge(old(a[left..mid + 1]), old(a[mid + 1..right + 1]))
    ensures forall k :: 0 <= k < a.Length && (k < left || right < k) ==> a[k] == old(a[k])
  {
    var temp := MergedRuns(a, left, mid, right);
    var k := 0;
    while k < |temp|
      invariant 0 <= k <= |temp| == right + 1 - left
      invariant forall p :: 0 <= p < k ==> a[left + p] == temp[p]
      invariant forall p :: 0 <= p < a.Length && (p < left || right < p) ==> a[p] == old(a[p])
    {
      a[left + k] := temp[k];
      k := k + 1;
    }
    forall p | 0 <= p < |temp| ensures a[left..right + 1][p] == temp[p] {
      assert a[left + p] == temp[p];
    }
    Text.Extensional(a[left..right + 1], temp);
  }

  lemma SliceAgree(u: seq<Entry>, v: seq<Entry>, lo: nat, hi: nat)
    requires lo <= hi <= |u| == |v| && forall k :: lo <= k < hi ==> u[k] == v[k]
    ensures u[lo..hi] == v[lo..hi]
  {
  }

  /** Merging the sorted halves of s gives MSort(s). */
  lemma Compose(s: seq<Entry>, x: seq<Entry>, y: seq<Entry>, z: seq<Entry>)
    requires |s| >= 2
    requires x == MSort(s[..LeftSize(|s|)]) && y == MSort(s[LeftSize(|s|)..]) && z == Merge(x, y)
    ensures z == MSort(s)
  {
  }

  /** `left..mid` and `mid+1..right` are the halves MSort splits `left..right` into. */
  lemma Halves(s: seq<Entry>, u: seq<Entry>, left: nat, mid: nat, right: nat)
    requires left <= mid < right < |u| && mid == left + (right - left) / 2 && s == u[left..right + 1]
    ensures |s| >= 2 && s[..LeftSize(|s|)] == u[left..mid + 1] && s[LeftSize(|s|)..] == u[mid + 1..right + 1]
  {
    assert LeftSize(|s|) == mid + 1 - left;
  }

  /** `mergeSort(arr, left, right)`: sorts the range `left..right` in place. */
  method MergeSort(a: array<Entry>, left: nat, right: int)
    requires left <= right + 1 && right < a.Length
    modifies a
    ensures a[left..right + 1] == MSort(old(a[left..right + 1]))
    ensures forall k :: 0 <= k < a.Length && (k < left || right < k) ==> a[k] == old(a[k])
    decreases right - left, 2
  {
    if left < right {
      var mid := left + (right - left) / 2;
      ghost var s := a[left..right + 1];
      Halves(s, a[..], left, mid, right);
      SortHalves(a, left, mid, right);
      ghost var x, y := a[left..mid + 1], a[mid + 1..right + 1];
      MergeRuns(a, left, mid, right);
      Compose(s, x, y, a[left..right + 1]);
    }
  }

  /** The two recursive calls of `mergeSort`: each half sorted, nothing else touched. */
  method SortHalves(a: array<Entry>, left: nat, mid: nat, right: nat)
    requires left <= mid < right < a.Length && mid == left + (right - left) / 2
    modifies a
    ensures a[left..mid + 1] == MSort(old(a[left..mid + 1]))
    ensures a[mid + 1..right + 1] == MSort(old(a[mid + 1..right + 1]))
    ensures forall k :: 0 <= k < a.Length && (k < left || right < k) ==> a[k] == old(a[k])
    decreases right - left, 1
  {
    SortLeft(a, left, mid, right);
    SortRight(a, left, mid, right);
  }

  /** The second recursive call: the right half sorted, the left half and the outside untouched. */
  method SortRight(a: array<Entry>, left: nat, mid: nat, right: nat)
    requires left <= mid < right < a.Length && mid == left + (right - left) / 2
    modifies a
    ensures a[left..mid + 1] == old(a[left..mid + 1])
    ensures a[mid + 1..right + 1] == MSort(old(a[mid + 1..right + 1]))
    ensures forall k :: 0 <= k < a.Length && (k < left || right < k) ==> a[k] == old(a[k])
    decreases right - left, 0
  {
    ghost var a0 := a[..];
    MergeSort(a, mid + 1, right);
    SliceAgree(a0, a[..], left, mid + 1);
  }

  /** The first recursive call: the left half sorted, the right half and the outside untouched. */
  method SortLeft(a: array<Entry>, left: nat, mid: nat, right: nat)
    requires left <= mid < right < a.Length && mid == left + (right - left) / 2
    modifies a
    ensures a[left..mid + 1] == MSort(old(a[left..mid + 1]))
    ensures a[mid + 1..right + 1] == old(a[mid + 1..right + 1])
    ensures forall k :: 0 <= k < a.Length && (k < left || right < k) ==> a[k] == old(a[k])
    decreases right - left, 0
  {
    ghost var a0 := a[..];
    MergeSort(a, left, mid);
    SliceAgree(a0, a[..], mid + 1, right + 1);
  }

}
