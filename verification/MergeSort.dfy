/** The merge sort of extra/prac_pthread.c: merging and sorting in place, and four workers on one shared array. */
module MergeSort {

  // ---------- merging and sorting sequences ----------

  function MergeSeq(a: seq<int>, b: seq<int>): (m: seq<int>)
    ensures |m| == |a| + |b|
    decreases |a| + |b|
  {
    if a == [] then b
    else if b == [] then a
    else if a[0] <= b[0] then [a[0]] + MergeSeq(a[1..], b)
    else [b[0]] + MergeSeq(a, b[1..])
  }

  /** The length of the first half: `mid - low + 1` for `mid = low + (high - low) / 2`. */
  function Half(n: nat): (m: nat)
    ensures n > 1 ==> 0 < m < n
  {
    if n == 0 then 0 else (n - 1) / 2 + 1
  }

  function Sort(s: seq<int>): (r: seq<int>)
    ensures |r| == |s|
    decreases |s|
  {
    if |s| <= 1 then s else MergeSeq(Sort(s[..Half(|s|)]), Sort(s[Half(|s|)..]))
  }

  predicate Sorted(s: seq<int>) {
    forall i, j | 0 <= i < j < |s| :: s[i] <= s[j]
  }

  lemma {:induction false} MergePermutes(a: seq<int>, b: seq<int>)
    ensures multiset(MergeSeq(a, b)) == multiset(a) + multiset(b)
    decreases |a| + |b|
  {
    if a == [] || b == [] {
    } else if a[0] <= b[0] {
      MergePermutes(a[1..], b);
      assert a == [a[0]] + a[1..];
      assert multiset(a) == multiset{a[0]} + multiset(a[1..]);
    } else {
      MergePermutes(a, b[1..]);
      assert b == [b[0]] + b[1..];
      assert multiset(b) == multiset{b[0]} + multiset(b[1..]);
    }
  }

  /** Every element of the merge is at least x if every element merged is. */
  lemma {:induction false} MergeAtLeast(a: seq<int>, b: seq<int>, x: int)
    requires (forall i | 0 <= i < |a| :: x <= a[i]) && (forall i | 0 <= i < |b| :: x <= b[i])
    ensures forall i | 0 <= i < |a| + |b| :: x <= MergeSeq(a, b)[i]
    decreases |a| + |b|
  {
    if a == [] || b == [] {
    } else if a[0] <= b[0] {
      MergeAtLeast(a[1..], b, x);
    } else {
      MergeAtLeast(a, b[1..], x);
    }
  }

  lemma {:induction false} MergeSorts(a: seq<int>, b: seq<int>)
    requires Sorted(a) && Sorted(b)
    ensures Sorted(MergeSeq(a, b))
    decreases |a| + |b|
  {
    if a == [] || b == [] {
    } else if a[0] <= b[0] {
      MergeSorts(a[1..], b);
      MergeAtLeast(a[1..], b, a[0]);
    } else {
      MergeSorts(a, b[1..]);
      MergeAtLeast(a, b[1..], b[0]);
    }
  }

  lemma {:induction false} SortSorts(s: seq<int>)
    ensures Sorted(Sort(s)) && multiset(Sort(s)) == multiset(s)
    decreases |s|
  {
    hide MergeSeq, Half, Sorted;
    if |s| <= 1 {
      OneSorted(s);
    } else {
      var a, b := s[..Half(|s|)], s[Half(|s|)..];
      SortSorts(a);
      SortSorts(b);
      MergeSorts(Sort(a), Sort(b));
      MergePermutes(Sort(a), Sort(b));
      assert s == a + b;
    }
  }

  lemma OneSorted(s: seq<int>)
    requires |s| <= 1
    ensures Sorted(s)
  {
  }

  /** Two sorted sequences of the same elements are equal. */
  lemma {:induction false} SortedUnique(a: seq<int>, b: seq<int>)
    requires Sorted(a) && Sorted(b) && multiset(a) == multiset(b)
    ensures a == b
    decreases |a|
  {
    hide Sorted;
    assert |multiset(a)| == |a| && |multiset(b)| == |b|;
    if a != [] {
      HeadsEqual(a, b);
      SortedTail(a);
      SortedTail(b);
      assert a == [a[0]] + a[1..] && b == [b[0]] + b[1..];
      assert multiset(a[1..]) == multiset(a) - multiset{a[0]};
      assert multiset(b[1..]) == multiset(b) - multiset{b[0]};
      SortedUnique(a[1..], b[1..]);
    }
  }

  lemma HeadsEqual(a: seq<int>, b: seq<int>)
    requires Sorted(a) && Sorted(b) && multiset(a) == multiset(b) && a != [] && b != []
    ensures a[0] == b[0]
  {
    assert a[0] in multiset(b) && b[0] in multiset(a);
  }

  lemma SortedTail(a: seq<int>)
    requires Sorted(a) && a != []
    ensures Sorted(a[1..])
  {
  }

  /** s with the elements from l on replaced by m. */
  function Patch(s: seq<int>, l: nat, m: seq<int>): (r: seq<int>)
    requires l + |m| <= |s|
    ensures |r| == |s|
  {
    s[..l] + m + s[l + |m|..]
  }

  // ---------- in place ----------

  /** Sorted runs low..mid and mid+1..high merged through two copies. */
  method Merge(arr: array<int>, low: nat, mid: nat, high: nat)
    requires low <= mid <= high < arr.Length
    modifies arr
    ensures arr[..] == Patch(old(arr[..]), low, MergeSeq(old(arr[low..mid + 1]), old(arr[mid + 1..high + 1])))
  {
    var n1, n2 := mid - low + 1, high - mid;
    var left := new int[n1];
    var right := new int[n2];
    ghost var s := arr[..];
    var i := 0;
    while i < n1
      invariant 0 <= i <= n1 && arr[..] == s && forall x | 0 <= x < i :: left[x] == s[low + x]
    {
      left[i] := arr[i + low];
      i := i + 1;
    }
    i := 0;
    while i < n2
      invariant 0 <= i <= n2 && arr[..] == s && forall x | 0 <= x < i :: right[x] == s[mid + 1 + x]
      invariant forall x | 0 <= x < n1 :: left[x] == s[low + x]
    {
      right[i] := arr[i + mid + 1];
      i := i + 1;
    }
    assert left[..] == s[low..mid + 1] && right[..] == s[mid + 1..high + 1];
    Interleave(arr, low, left, right);
  }

  /** The three merging loops, from the copies back into the array. */
  method Interleave(arr: array<int>, low: nat, left: array<int>, right: array<int>)
    requires low + left.Length + right.Length <= arr.Length && arr != left && arr != right
    modifies arr
    ensures arr[..] == Patch(old(arr[..]), low, MergeSeq(left[..], right[..]))
  {
    hide MergeSeq, Merging, Patch;
    ghost var s, l, r := arr[..], left[..], right[..];
    ghost var m := MergeSeq(l, r);
    MergingStart(s, low, l, r);
    var k, i, j := low, 0, 0;
    while i < left.Length && j < right.Length
      invariant 0 <= i <= left.Length && 0 <= j <= right.Length && k == low + i + j
      invariant left[..] == l && right[..] == r && Merging(s, low, m, arr[..], i + j, l[i..], r[j..])
    {
      MergingStep(s, low, m, arr[..], i + j, l[i..], r[j..]);
      assert l[i..][1..] == l[i + 1..] && r[j..][1..] == r[j + 1..];
      if left[i] <= right[j] {
        arr[k] := left[i];
        k, i := k + 1, i + 1;
      } else {
        arr[k] := right[j];
        k, j := k + 1, j + 1;
      }
    }
    while i < left.Length
      invariant 0 <= i <= left.Length && 0 <= j <= right.Length && k == low + i + j
                  && (i == left.Length || j == right.Length)
      invariant left[..] == l && right[..] == r && Merging(s, low, m, arr[..], i + j, l[i..], r[j..])
    {
      MergingStep(s, low, m, arr[..], i + j, l[i..], r[j..]);
      assert l[i..][1..] == l[i + 1..];
      arr[k] := left[i];
      k, i := k + 1, i + 1;
    }
    while j < right.Length
      invariant 0 <= j <= right.Length && i == left.Length && k == low + i + j
      invariant left[..] == l && right[..] == r && Merging(s, low, m, arr[..], i + j, l[i..], r[j..])
    {
      MergingStep(s, low, m, arr[..], i + j, l[i..], r[j..]);
      assert r[j..][1..] == r[j + 1..];
      arr[k] := right[j];
      k, j := k + 1, j + 1;
    }
    MergingEnd(s, low, m, arr[..], i + j, l[i..], r[j..]);
  }

  lemma MergingStart(s: seq<int>, low: nat, l: seq<int>, r: seq<int>)
    requires low + |l| + |r| <= |s|
    ensures Merging(s, low, MergeSeq(l, r), s, 0, l[0..], r[0..])
  {
    hide MergeSeq;
    var m := MergeSeq(l, r);
    assert l[0..] == l && r[0..] == r && m[0..] == m && m[..0] == [];
    assert s == Patch(s, low, []);
  }

  lemma MergingEnd(s: seq<int>, low: nat, m: seq<int>, arr: seq<int>, n: nat, a: seq<int>, b: seq<int>)
    requires Merging(s, low, m, arr, n, a, b) && a == [] && b == []
    ensures low + |m| <= |s| && arr == Patch(s, low, m)
  {
    hide MergeSeq;
    assert m[..n] == m;
  }

  /** n elements of the merge m have been written at low; what is left to merge are a and b. */
  ghost predicate Merging(s: seq<int>, low: nat, m: seq<int>, arr: seq<int>, n: nat, a: seq<int>, b: seq<int>) {
    && low + |m| <= |s| && n + |a| + |b| == |m| && |arr| == |s|
    && m[n..] == MergeSeq(a, b)
    && arr == Patch(s, low, m[..n])
  }

  /** The element written next. */
  function Next(a: seq<int>, b: seq<int>): int
    requires a != [] || b != []
  {
    if a != [] && (b == [] || a[0] <= b[0]) then a[0] else b[0]
  }

  lemma MergingStep(s: seq<int>, low: nat, m: seq<int>, arr: seq<int>, n: nat, a: seq<int>, b: seq<int>)
    requires Merging(s, low, m, arr, n, a, b) && (a != [] || b != [])
    ensures low + n < |arr|
    ensures Next(a, b) == m[n]
    ensures if a != [] && (b == [] || a[0] <= b[0]) then Merging(s, low, m, arr[low + n := a[0]], n + 1, a[1..], b)
            else Merging(s, low, m, arr[low + n := b[0]], n + 1, a, b[1..])
  {
    assert m[n..][0] == m[n] && m[n..][1..] == m[n + 1..];
    assert m[..n + 1] == m[..n] + [m[n]];
    assert arr[low + n := m[n]] == Patch(s, low, m[..n + 1]);
  }

  /** Elements l up to h merged at m, in place. */
  function MergeIn(s: seq<int>, l: nat, m: nat, h: nat): (r: seq<int>)
    requires l <= m <= h <= |s|
    ensures |r| == |s|
  {
    Patch(s, l, MergeSeq(s[l..m], s[m..h]))
  }

  /** Elements l up to h sorted, in place. */
  function SortIn(s: seq<int>, l: nat, h: nat): (r: seq<int>)
    requires l <= h <= |s|
    ensures |r| == |s|
  {
    Patch(s, l, Sort(s[l..h]))
  }

  /** Sorting the halves one after the other and merging them sorts the whole. */
  lemma SplitSort(s: seq<int>, l: nat, h: nat)
    requires l + 1 < h <= |s|
    ensures var m := l + Half(h - l);
            MergeIn(SortIn(SortIn(s, l, m), m, h), l, m, h) == SortIn(s, l, h)
  {
    hide Sort, MergeSeq, SortIn, MergeIn, Half;
    var m := l + Half(h - l);
    assert s[l..h][..m - l] == s[l..m] && s[l..h][m - l..] == s[m..h];
    SortSplits(s[l..h]);
    SplitSortAt(s, l, m, h);
  }

  lemma SplitSortAt(s: seq<int>, l: nat, m: nat, h: nat)
    requires l <= m <= h <= |s| && Sort(s[l..h]) == MergeSeq(Sort(s[l..m]), Sort(s[m..h]))
    ensures MergeIn(SortIn(SortIn(s, l, m), m, h), l, m, h) == SortIn(s, l, h)
  {
    hide Sort, MergeSeq;
    var a := SortIn(s, l, m);
    assert a[m..h] == s[m..h];
    var b := SortIn(a, m, h);
    assert b[l..m] == Sort(s[l..m]) && b[m..h] == Sort(s[m..h]);
  }

  lemma SortSplits(s: seq<int>)
    requires |s| > 1
    ensures Sort(s) == MergeSeq(Sort(s[..Half(|s|)]), Sort(s[Half(|s|)..]))
  {
  }

  method MergeSort(arr: array<int>, low: nat, high: nat)
    requires low <= high < arr.Length
    modifies arr
    ensures arr[..] == SortIn(old(arr[..]), low, high + 1)
    decreases high - low
  {
    hide Sort, MergeSeq, SortIn, MergeIn, Patch;
    var mid := low + (high - low) / 2;
    ghost var s := arr[..];
    if low < high {
      MergeSort(arr, low, mid);
      MergeSort(arr, mid + 1, high);
      ghost var t := arr[..];
      assert arr[low..mid + 1] == t[low..mid + 1] && arr[mid + 1..high + 1] == t[mid + 1..high + 1];
      Merge(arr, low, mid, high);
      MergeInIs(t, low, mid + 1, high + 1);
      SplitSort(s, low, high + 1);
    } else {
      SortOne(s, low);
    }
  }

  lemma MergeInIs(s: seq<int>, l: nat, m: nat, h: nat)
    requires l <= m <= h <= |s|
    ensures MergeIn(s, l, m, h) == Patch(s, l, MergeSeq(s[l..m], s[m..h]))
  {
  }

  lemma SortOne(s: seq<int>, l: nat)
    requires l < |s|
    ensures SortIn(s, l, l + 1) == s
  {
    assert Sort(s[l..l + 1]) == s[l..l + 1];
  }

  // ---------- before and after ----------

  function Identity(n: nat): (s: seq<int>)
    ensures |s| == n && forall i | 0 <= i < n :: s[i] == i
  {
    seq(n, i => i)
  }

  method Fill(arr: array<int>)
    modifies arr
    ensures arr[..] == Identity(arr.Length)
  {
    var i := 0;
    while i < arr.Length
      invariant 0 <= i <= arr.Length && forall j | 0 <= j < i :: arr[j] == j
    {
      arr[i] := i;
      i := i + 1;
    }
  }

  function Swap(s: seq<int>, i: nat, j: nat): (r: seq<int>)
    requires i < |s| && j < |s|
    ensures |r| == |s|
  {
    s[i := s[j]][j := s[i]]
  }

  /** What the shuffle makes of s with the choices of rand, when it has come down to the first n places. */
  function Shuffled(s: seq<int>, rand: seq<nat>, n: nat): (r: seq<int>)
    requires n <= |s| == |rand|
    ensures |r| == |s|
    decreases n
  {
    if n <= 1 then s else Shuffled(Swap(s, n - 1, rand[n - 1] % n), rand, n - 1)
  }

  /** The shuffle, for any random numbers. */
  method Shuffle(arr: array<int>, rand: seq<nat>)
    requires |rand| == arr.Length
    modifies arr
    ensures arr[..] == Shuffled(old(arr[..]), rand, arr.Length)
  {
    var i := arr.Length - 1;
    while i >= 1
      invariant -1 <= i < arr.Length && (arr.Length > 0 ==> i >= 0)
      invariant Shuffled(arr[..], rand, i + 1) == Shuffled(old(arr[..]), rand, arr.Length)
    {
      ghost var was := arr[..];
      var j := rand[i] % (i + 1);
      var t := arr[i];
      arr[i] := arr[j];
      arr[j] := t;
      assert arr[..] == Swap(was, i, j);
      i := i - 1;
    }
  }

  /** The places from n on keep what they hold. */
  lemma {:induction false} ShuffledKeeps(s: seq<int>, rand: seq<nat>, n: nat)
    requires n <= |s| == |rand|
    ensures multiset(Shuffled(s, rand, n)) == multiset(s)
    ensures forall k | n <= k < |s| :: Shuffled(s, rand, n)[k] == s[k]
    decreases n
  {
    if n > 1 {
      ShuffledKeeps(Swap(s, n - 1, rand[n - 1] % n), rand, n - 1);
    }
  }

  /** Only the choices for the first n places matter. */
  lemma {:induction false} SameChoices(s: seq<int>, rand: seq<nat>, rand': seq<nat>, n: nat)
    requires n <= |s| == |rand| == |rand'| && forall k | 0 <= k < n :: rand[k] == rand'[k]
    ensures Shuffled(s, rand, n) == Shuffled(s, rand', n)
    decreases n
  {
    if n > 1 {
      SameChoices(Swap(s, n - 1, rand[n - 1] % n), rand, rand', n - 1);
    }
  }

  /** The choices of a shuffle: for place i one of the places up to i. */
  predicate Choices(rand: seq<nat>) {
    forall i | 0 <= i < |rand| :: rand[i] <= i
  }

  lemma ShuffleStep(s: seq<int>, rand: seq<nat>, n: nat)
    requires 1 < n <= |s| == |rand| && rand[n - 1] < n
    ensures Shuffled(s, rand, n) == Shuffled(Swap(s, n - 1, rand[n - 1]), rand, n - 1)
  {
    assert rand[n - 1] % n == rand[n - 1];
  }

  /** The sequences are orders of the same elements and agree from place n on. */
  predicate SameFrom(s: seq<int>, t: seq<int>, n: nat) {
    n <= |s| == |t| && multiset(s) == multiset(t) && forall k | n <= k < |s| :: s[k] == t[k]
  }

  /** What the last open place of t holds is at an open place of s. */
  lemma FindIn(s: seq<int>, t: seq<int>, n: nat) returns (j: nat)
    requires SameFrom(s, t, n) && n > 0
    ensures j < n && s[j] == t[n - 1]
  {
    var x := t[n - 1];
    assert s == s[..n] + s[n..] && t == t[..n] + t[n..] && s[n..] == t[n..];
    assert multiset(s[..n]) == multiset(s) - multiset(s[n..]);
    assert multiset(t[..n]) == multiset(t) - multiset(t[n..]);
    assert t[..n][n - 1] == x;
    assert x in multiset(s[..n]);
    j :| j < n && s[..n][j] == x;
  }

  lemma SwapSame(s: seq<int>, t: seq<int>, n: nat, j: nat)
    requires SameFrom(s, t, n) && j < n && s[j] == t[n - 1]
    ensures SameFrom(Swap(s, n - 1, j), t, n - 1)
  {
    Swapped(s, n - 1, j);
  }

  lemma Swapped(s: seq<int>, i: nat, j: nat)
    requires i < |s| && j < |s|
    ensures multiset(Swap(s, i, j)) == multiset(s)
  {
  }

  lemma {:induction false} EveryOrderFrom(s: seq<int>, t: seq<int>, n: nat) returns (rand: seq<nat>)
    requires SameFrom(s, t, n)
    ensures |rand| == |s| && Choices(rand) && Shuffled(s, rand, n) == t
    decreases n
  {
    hide Swap;
    if n == 0 {
      rand := seq(|s|, _ => 0);
      assert s == t;
    } else {
      var j := FindIn(s, t, n);
      SwapSame(s, t, n, j);
      rand := EveryOrderFrom(Swap(s, n - 1, j), t, n - 1);
      SameChoices(Swap(s, n - 1, j), rand, rand[n - 1 := j], n - 1);
      rand := rand[n - 1 := j];
      if n > 1 {
        ShuffleStep(s, rand, n);
      } else {
        assert Swap(s, 0, 0) == s by { SwapNothing(s); }
      }
    }
  }

  lemma SwapNothing(s: seq<int>)
    requires s != []
    ensures Swap(s, 0, 0) == s
  {
  }

  /** Every order of the elements comes out for some choices. */
  lemma EveryOrder(s: seq<int>, t: seq<int>) returns (rand: seq<nat>)
    requires multiset(s) == multiset(t)
    ensures |rand| == |s| && Choices(rand) && Shuffled(s, rand, |s|) == t
  {
    assert |s| == |multiset(s)| == |multiset(t)| == |t|;
    rand := EveryOrderFrom(s, t, |s|);
  }

  predicate Different(s: seq<int>) {
    forall i, j | 0 <= i < j < |s| :: s[i] != s[j]
  }

  lemma SwapDifferent(s: seq<int>, i: nat, j: nat)
    requires i < |s| && j < |s| && Different(s)
    ensures Different(Swap(s, i, j)) && Swap(s, i, j)[i] == s[j]
  {
  }

  lemma SamePlace(s: seq<int>, i: nat, j: nat)
    requires i < |s| && j < |s| && Different(s)
    ensures s[i] == s[j] ==> i == j
  {
  }

  /** And for one choice only, if the elements are different: no order is favoured. */
  lemma {:induction false} OneWay(s: seq<int>, rand: seq<nat>, rand': seq<nat>, n: nat)
    requires n <= |s| == |rand| == |rand'| && Choices(rand) && Choices(rand') && Different(s)
    requires Shuffled(s, rand, n) == Shuffled(s, rand', n)
    ensures forall i | 1 <= i < n :: rand[i] == rand'[i]
    decreases n
  {
    hide Swap, Different, Shuffled;
    if n > 1 {
      var i := n - 1;
      ShuffleStep(s, rand, n);
      ShuffleStep(s, rand', n);
      var u, v := Swap(s, i, rand[i]), Swap(s, i, rand'[i]);
      ShuffledKeeps(u, rand, i);
      ShuffledKeeps(v, rand', i);
      SwapDifferent(s, i, rand[i]);
      SwapDifferent(s, i, rand'[i]);
      SamePlace(s, rand[i], rand'[i]);
      assert u[i] == v[i];
      OneWay(u, rand, rand', i);
    }
  }

  method CheckSorted(arr: array<int>) returns (ok: bool)
    ensures ok <==> arr[..] == Identity(arr.Length)
  {
    var i := 0;
    while i < arr.Length
      invariant 0 <= i <= arr.Length && forall j | 0 <= j < i :: arr[j] == j
    {
      if arr[i] != i {
        assert arr[..][i] != Identity(arr.Length)[i];
        return false;
      }
      i := i + 1;
    }
    return true;
  }
}
