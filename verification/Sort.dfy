/** table.sort: the in-place quicksort of ltablib.c. Positions 1 to n of the array are the table's. */
module Sort {

  // ----- orders

  ghost predicate StrictWeak<T(!new)>(less: (T, T) -> bool) {
    && (forall x, y :: less(x, y) ==> !less(y, x))
    && (forall x, y, z :: less(x, z) ==> less(x, y) || less(y, z))
  }

  /** Not after: the total preorder of a strict weak order. */
  predicate Le<T>(less: (T, T) -> bool, x: T, y: T) { !less(y, x) }

  lemma LeTrans<T(!new)>(less: (T, T) -> bool, x: T, y: T, z: T)
    requires StrictWeak(less) && Le(less, x, y) && Le(less, y, z)
    ensures Le(less, x, z)
  {
  }

  lemma LessLe<T(!new)>(less: (T, T) -> bool, x: T, y: T)
    requires StrictWeak(less) && less(x, y)
    ensures Le(less, x, y)
  {
  }

  predicate Sorted<T>(less: (T, T) -> bool, s: seq<T>, l: int, u: int)
    requires 0 <= l && u < |s|
  {
    forall p, q :: l <= p < q <= u ==> Le(less, s[p], s[q])
  }

  /** Everything from l to u is at most, or at least, the pivot. */
  predicate Below<T>(less: (T, T) -> bool, s: seq<T>, l: int, u: int, pivot: T)
    requires 0 <= l && u < |s|
  {
    forall k :: l <= k <= u ==> Le(less, s[k], pivot)
  }

  predicate Above<T>(less: (T, T) -> bool, s: seq<T>, l: int, u: int, pivot: T)
    requires 0 <= l && u < |s|
  {
    forall k :: l <= k <= u ==> Le(less, pivot, s[k])
  }

  /** In order from l0 to u0, except for pairs that both lie from l to u. */
  predicate SortedAround<T>(less: (T, T) -> bool, s: seq<T>, l0: int, u0: int, l: int, u: int)
    requires 0 <= l0 && u0 < |s|
  {
    forall p, q :: l0 <= p < q <= u0 && !(l <= p && q <= u) ==> Le(less, s[p], s[q])
  }

  // ----- rearranging a stretch

  /** t is s with the stretch from l to u rearranged. */
  ghost predicate Rearranged<T>(s: seq<T>, t: seq<T>, l: int, u: int) {
    && |s| == |t| && 0 <= l && u < |s|
    && (forall k :: 0 <= k < |s| && !(l <= k <= u) ==> t[k] == s[k])
    && (l <= u ==> multiset(t[l..u + 1]) == multiset(s[l..u + 1]))
  }

  lemma RearrangedSelf<T>(s: seq<T>, l: int, u: int)
    requires 0 <= l && u < |s|
    ensures Rearranged(s, s, l, u)
  {
  }

  lemma RearrangedTrans<T>(s: seq<T>, t: seq<T>, v: seq<T>, l: int, u: int)
    requires Rearranged(s, t, l, u) && Rearranged(t, v, l, u)
    ensures Rearranged(s, v, l, u)
  {
  }

  lemma SplitStretch<T>(s: seq<T>, l: int, u: int, l1: int, u1: int)
    requires 0 <= l <= l1 <= u1 <= u < |s|
    ensures multiset(s[l..u + 1]) == multiset(s[l..l1]) + multiset(s[l1..u1 + 1]) + multiset(s[u1 + 1..u + 1])
  {
    assert s[l..u + 1] == s[l..l1] + s[l1..u1 + 1] + s[u1 + 1..u + 1];
  }

  /** Rearranging part of a stretch rearranges the stretch. */
  lemma RearrangedWithin<T>(s: seq<T>, t: seq<T>, l: int, u: int, l1: int, u1: int)
    requires Rearranged(s, t, l1, u1) && 0 <= l <= l1 && u1 <= u < |s|
    ensures Rearranged(s, t, l, u)
  {
    if l1 <= u1 {
      SplitStretch(s, l, u, l1, u1);
      SplitStretch(t, l, u, l1, u1);
      assert s[l..l1] == t[l..l1] && s[u1 + 1..u + 1] == t[u1 + 1..u + 1];
    } else {
      assert s == t;
    }
  }

  lemma SwapRearranges<T>(s: seq<T>, t: seq<T>, l: int, u: int, i: int, j: int)
    requires 0 <= l <= i <= j <= u < |s| && t == s[i := s[j]][j := s[i]]
    ensures Rearranged(s, t, l, u)
  {
    if i < j {
      assert s[i..j + 1] == [s[i]] + s[i + 1..j] + [s[j]];
      assert t[i..j + 1] == [s[j]] + s[i + 1..j] + [s[i]];
      assert Rearranged(s, t, i, j);
      RearrangedWithin(s, t, l, u, i, j);
    } else {
      assert s == t;
    }
  }

  /** Every element of a rearranged stretch was there before. */
  lemma CameFrom<T>(s: seq<T>, t: seq<T>, l: int, u: int, k: int) returns (j: int)
    requires Rearranged(s, t, l, u) && l <= k <= u
    ensures l <= j <= u && t[k] == s[j]
  {
    assert t[k] in multiset(t[l..u + 1]) by { assert t[l..u + 1][k - l] == t[k]; }
    assert t[k] in s[l..u + 1];
    var m :| 0 <= m < |s[l..u + 1]| && s[l..u + 1][m] == t[k];
    j := l + m;
  }

  lemma BelowKept<T>(less: (T, T) -> bool, s: seq<T>, t: seq<T>, l: int, u: int, pivot: T)
    requires Rearranged(s, t, l, u) && Below(less, s, l, u, pivot)
    ensures Below(less, t, l, u, pivot)
  {
    forall k | l <= k <= u ensures Le(less, t[k], pivot) { var j := CameFrom(s, t, l, u, k); }
  }

  lemma AboveKept<T>(less: (T, T) -> bool, s: seq<T>, t: seq<T>, l: int, u: int, pivot: T)
    requires Rearranged(s, t, l, u) && Above(less, s, l, u, pivot)
    ensures Above(less, t, l, u, pivot)
  {
    forall k | l <= k <= u ensures Le(less, pivot, t[k]) { var j := CameFrom(s, t, l, u, k); }
  }

  lemma AroundKept<T>(less: (T, T) -> bool, s: seq<T>, t: seq<T>, l0: int, u0: int, l: int, u: int)
    requires 0 <= l0 <= l && u <= u0 < |s| && SortedAround(less, s, l0, u0, l, u) && Rearranged(s, t, l, u)
    ensures SortedAround(less, t, l0, u0, l, u)
  {
    forall p, q | l0 <= p < q <= u0 && !(l <= p && q <= u) ensures Le(less, t[p], t[q]) {
      if l <= p <= u {
        var j := CameFrom(s, t, l, u, p);
      } else if l <= q <= u {
        var j := CameFrom(s, t, l, u, q);
      }
    }
  }

  // ----- one round

  /** Split at m: what is left of it is at most its value, what is right of it at least. */
  predicate Split<T>(less: (T, T) -> bool, s: seq<T>, l: int, u: int, m: int)
    requires 0 <= l <= m <= u < |s|
  {
    Below(less, s, l, m - 1, s[m]) && Above(less, s, m + 1, u, s[m])
  }

  /** After the left part is sorted, only the right part is left to do. */
  lemma LeftDone<T(!new)>(less: (T, T) -> bool, s: seq<T>, l0: int, u0: int, l: int, u: int, m: int)
    requires StrictWeak(less) && 0 <= l0 <= l <= m <= u <= u0 < |s|
    requires SortedAround(less, s, l0, u0, l, u) && Split(less, s, l, u, m) && Sorted(less, s, l, m - 1)
    ensures SortedAround(less, s, l0, u0, m + 1, u)
  {
    forall p, q | l0 <= p < q <= u0 && !(m + 1 <= p && q <= u) ensures Le(less, s[p], s[q]) {
      if l <= p <= m && q <= u {
        if q > m && p < m { LeTrans(less, s[p], s[m], s[q]); }
      }
    }
  }

  lemma RightDone<T(!new)>(less: (T, T) -> bool, s: seq<T>, l0: int, u0: int, l: int, u: int, m: int)
    requires StrictWeak(less) && 0 <= l0 <= l <= m <= u <= u0 < |s|
    requires SortedAround(less, s, l0, u0, l, u) && Split(less, s, l, u, m) && Sorted(less, s, m + 1, u)
    ensures SortedAround(less, s, l0, u0, l, m - 1)
  {
    forall p, q | l0 <= p < q <= u0 && !(l <= p && q <= m - 1) ensures Le(less, s[p], s[q]) {
      if l <= p && m <= q <= u {
        if p < m && q > m { LeTrans(less, s[p], s[m], s[q]); }
      }
    }
  }

  /** set2, on the two values just read: swaps them. */
  method Swap<T>(a: array<T>, ghost l: int, ghost u: int, i: int, j: int)
    requires 0 <= l <= i <= j <= u < a.Length
    modifies a
    ensures a[i] == old(a[j]) && a[j] == old(a[i])
    ensures forall k :: 0 <= k < a.Length && k != i && k != j ==> a[k] == old(a[k])
    ensures Rearranged(old(a[..]), a[..], l, u)
  {
    ghost var s := a[..];
    a[i], a[j] := a[j], a[i];
    SwapRearranges(s, a[..], l, u, i, j);
  }

  /** The elements at l, i and u are put in order. */
  method OrderThree<T(!new)>(a: array<T>, less: (T, T) -> bool, l: int, i: int, u: int)
    requires StrictWeak(less) && 0 <= l < i < u < a.Length && Le(less, a[l], a[u])
    modifies a
    ensures Rearranged(old(a[..]), a[..], l, u)
    ensures Le(less, a[l], a[i]) && Le(less, a[i], a[u])
  {
    hide Rearranged, StrictWeak;
    RearrangedSelf(a[..], l, u);
    if less(a[i], a[l]) {
      LessLe(less, a[i], a[l]);
      LeTrans(less, a[i], a[l], a[u]);
      Swap(a, l, u, l, i);
    } else if less(a[u], a[i]) {
      LessLe(less, a[u], a[i]);
      Swap(a, l, u, i, u);
    }
  }

  lemma ThreeSorted<T(!new)>(less: (T, T) -> bool, s: seq<T>, l: int)
    requires StrictWeak(less) && 0 <= l && l + 2 < |s| && Le(less, s[l], s[l + 1]) && Le(less, s[l + 1], s[l + 2])
    ensures Sorted(less, s, l, l + 2)
  {
    LeTrans(less, s[l], s[l + 1], s[l + 2]);
  }

  /** The elements at l, (l+u)/2 and u are put in order, and the middle one goes to u-1 as the pivot. */
  method ChoosePivot<T(!new)>(a: array<T>, less: (T, T) -> bool, l: int, u: int) returns (done: bool)
    requires StrictWeak(less) && 0 <= l < u < a.Length
    modifies a
    ensures Rearranged(old(a[..]), a[..], l, u)
    ensures done <==> u - l <= 2
    ensures done ==> Sorted(less, a[..], l, u)
    ensures !done ==> Le(less, a[l], a[u - 1]) && Le(less, a[u - 1], a[u])
  {
    hide Rearranged, StrictWeak;
    ghost var s := a[..];
    RearrangedSelf(s, l, u);
    if less(a[u], a[l]) {
      LessLe(less, a[u], a[l]);
      Swap(a, l, u, l, u);
    }
    if u - l == 1 { return true; }
    var i := (l + u) / 2;
    ghost var s1 := a[..];
    OrderThree(a, less, l, i, u);
    RearrangedTrans(s, s1, a[..], l, u);
    if u - l == 2 {
      ThreeSorted(less, a[..], l);
      return true;
    }
    ghost var s2 := a[..];
    Swap(a, l, u, i, u - 1);
    RearrangedTrans(s, s2, a[..], l, u);
    return false;
  }

  /** ++i until a[i] is not before the pivot. The pivot itself, at u-1, stops it: the order function is never blamed. */
  method ScanUp<T(!new)>(a: array<T>, less: (T, T) -> bool, l: int, u: int, i0: int, pivot: T) returns (i: int)
    requires StrictWeak(less) && 0 <= l <= i0 < u - 1 && u < a.Length && a[u - 1] == pivot &&
      Below(less, a[..], l, i0, pivot)
    ensures i0 < i <= u - 1 && Below(less, a[..], l, i - 1, pivot) && Le(less, pivot, a[i])
  {
    i := i0 + 1;
    while less(a[i], pivot)
      invariant i0 < i <= u - 1 && Below(less, a[..], l, i - 1, pivot)
      decreases u - i
    {
      assert i <= u;
      LessLe(less, a[i], pivot);
      i := i + 1;
    }
  }

  /** --j until the pivot is not before a[j]. The element at l stops it. */
  method ScanDown<T(!new)>(a: array<T>, less: (T, T) -> bool, l: int, u: int, j0: int, pivot: T) returns (j: int)
    requires StrictWeak(less) && 0 <= l < j0 <= u < a.Length && Le(less, a[l], pivot) &&
      Above(less, a[..], j0, u, pivot)
    ensures l <= j < j0 && Above(less, a[..], j + 1, u, pivot) && Le(less, a[j], pivot)
  {
    j := j0 - 1;
    while less(pivot, a[j])
      invariant l <= j < j0 && Above(less, a[..], j + 1, u, pivot)
      decreases j
    {
      assert j >= l;
      LessLe(less, pivot, a[j]);
      j := j - 1;
    }
  }

  /** The partition, with the pivot at u-1; afterwards it stands at i. */
  method Partition<T(!new)>(a: array<T>, less: (T, T) -> bool, l: int, u: int) returns (i: int)
    requires StrictWeak(less) && 0 <= l && l + 3 <= u < a.Length && Le(less, a[l], a[u - 1]) && Le(less, a[u - 1], a[u])
    modifies a
    ensures Rearranged(old(a[..]), a[..], l, u)
    ensures l < i < u && Split(less, a[..], l, u, i)
  {
    hide Rearranged, StrictWeak, Below, Above;
    var pivot := a[u - 1];
    ghost var s := a[..];
    RearrangedSelf(s, l, u);
    var j := u - 1;
    i := l;
    EndsSplit(less, s, l, u);
    while true
      invariant l <= i <= j <= u - 1 && i < u - 1 && a[u - 1] == pivot
      invariant Below(less, a[..], l, i, pivot) && Above(less, a[..], j, u, pivot)
      invariant i == l ==> j > l
      invariant Rearranged(s, a[..], l, u)
      decreases j
    {
      i := ScanUp(a, less, l, u, i, pivot);
      BelowAt(less, a[..], l, i - 1, pivot);
      j := ScanDown(a, less, l, u, j, pivot);
      if j < i { break; }
      ghost var t := a[..];
      Swap(a, l, u, i, j);
      RearrangedTrans(s, t, a[..], l, u);
      Closer(less, t, a[..], l, u, i, j, pivot);
    }
    ghost var t := a[..];
    Swap(a, l, u, i, u - 1);
    RearrangedTrans(s, t, a[..], l, u);
    SplitAt(less, t, a[..], l, u, i, j, pivot);
  }

  lemma EndsSplit<T(!new)>(less: (T, T) -> bool, s: seq<T>, l: int, u: int)
    requires StrictWeak(less) && 0 <= l < u < |s| && Le(less, s[l], s[u - 1]) && Le(less, s[u - 1], s[u])
    ensures Below(less, s, l, l, s[u - 1]) && Above(less, s, u - 1, u, s[u - 1])
  {
  }

  lemma BelowAt<T>(less: (T, T) -> bool, s: seq<T>, l: int, i: int, pivot: T)
    requires 0 <= l <= i < |s| && Below(less, s, l, i, pivot)
    ensures Le(less, s[l], pivot)
  {
  }

  /** After the swap of a[i] and a[j], both sides reach to them. */
  lemma Closer<T>(less: (T, T) -> bool, t: seq<T>, v: seq<T>, l: int, u: int, i: int, j: int, pivot: T)
    requires 0 <= l < i <= j < u < |t| == |v| && v[i] == t[j] && v[j] == t[i]
    requires forall k :: 0 <= k < |t| && k != i && k != j ==> v[k] == t[k]
    requires Below(less, t, l, i - 1, pivot) && Le(less, pivot, t[i])
    requires Above(less, t, j + 1, u, pivot) && Le(less, t[j], pivot)
    ensures Below(less, v, l, i, pivot) && Above(less, v, j, u, pivot)
  {
  }

  /** The pivot comes back from u-1 to i. */
  lemma SplitAt<T>(less: (T, T) -> bool, t: seq<T>, v: seq<T>, l: int, u: int, i: int, j: int, pivot: T)
    requires 0 <= l <= j < i < u < |t| == |v| && v[i] == t[u - 1] == pivot && v[u - 1] == t[i]
    requires forall k :: 0 <= k < |t| && k != i && k != u - 1 ==> v[k] == t[k]
    requires Below(less, t, l, i - 1, pivot) && Le(less, pivot, t[i]) && Above(less, t, j + 1, u, pivot)
    ensures Split(less, v, l, u, i)
  {
  }

  // ----- the whole sort

  function Pow2(n: nat): (r: nat)
    ensures r > 0
  {
    if n == 0 then 1 else 2 * Pow2(n - 1)
  }

  lemma Pow2Zero()
    ensures Pow2(0) == 1
  {
  }

  function Size(l: int, u: int): nat { if l <= u then u - l + 1 else 0 }

  /** A rearrangement inside the part still to do. */
  lemma Progress<T>(less: (T, T) -> bool, s: seq<T>, t: seq<T>, v: seq<T>, l0: int, u0: int, l: int, u: int)
    requires 0 <= l0 <= l && u <= u0 < |s| && Rearranged(s, t, l0, u0) && Rearranged(t, v, l, u)
    requires SortedAround(less, t, l0, u0, l, u)
    ensures Rearranged(s, v, l0, u0) && SortedAround(less, v, l0, u0, l, u)
  {
    RearrangedWithin(t, v, l0, u0, l, u);
    RearrangedTrans(s, t, v, l0, u0);
    AroundKept(less, t, v, l0, u0, l, u);
  }

  /** Sorting one side of a split keeps the split. */
  lemma SplitKept<T>(less: (T, T) -> bool, t: seq<T>, v: seq<T>, l: int, u: int, m: int)
    requires 0 <= l <= m <= u < |t| && Split(less, t, l, u, m)
    requires Rearranged(t, v, l, m - 1) || Rearranged(t, v, m + 1, u)
    ensures Split(less, v, l, u, m)
  {
    if Rearranged(t, v, l, m - 1) {
      BelowKept(less, t, v, l, m - 1, t[m]);
    } else {
      AboveKept(less, t, v, m + 1, u, t[m]);
    }
  }

  /** One round of the loop, with the left part sorted by recursion. */
  lemma LeftRound<T(!new)>(less: (T, T) -> bool, s: seq<T>, t: seq<T>, v: seq<T>, l0: int, u0: int, l: int, u: int,
                    i: int)
    requires StrictWeak(less) && 0 <= l0 <= l <= i <= u <= u0 < |s| && Rearranged(s, t, l0, u0)
    requires |t| == |s| && SortedAround(less, t, l0, u0, l, u) && Split(less, t, l, u, i)
    requires Rearranged(t, v, l, i - 1) && |v| == |s| && Sorted(less, v, l, i - 1)
    ensures Rearranged(s, v, l0, u0) && SortedAround(less, v, l0, u0, i + 1, u)
  {
    hide Rearranged, SortedAround, Sorted, Split, StrictWeak;
    SplitKept(less, t, v, l, u, i);
    RearrangedWithin(t, v, l, u, l, i - 1);
    Progress(less, s, t, v, l0, u0, l, u);
    LeftDone(less, v, l0, u0, l, u, i);
  }

  lemma RightRound<T(!new)>(less: (T, T) -> bool, s: seq<T>, t: seq<T>, v: seq<T>, l0: int, u0: int, l: int, u: int,
                     i: int)
    requires StrictWeak(less) && 0 <= l0 <= l <= i <= u <= u0 < |s| && Rearranged(s, t, l0, u0)
    requires |t| == |s| && SortedAround(less, t, l0, u0, l, u) && Split(less, t, l, u, i)
    requires Rearranged(t, v, i + 1, u) && |v| == |s| && Sorted(less, v, i + 1, u)
    ensures Rearranged(s, v, l0, u0) && SortedAround(less, v, l0, u0, l, i - 1)
  {
    hide Rearranged, SortedAround, Sorted, Split, StrictWeak;
    SplitKept(less, t, v, l, u, i);
    RearrangedWithin(t, v, l, u, i + 1, u);
    Progress(less, s, t, v, l0, u0, l, u);
    RightDone(less, v, l0, u0, l, u, i);
  }

  /** A recursion into less than half of a stretch. */
  lemma DepthStep(d: nat, small: nat, size: nat)
    requires if small > 0 then Pow2(d) <= small else d == 0
    requires 2 * small + 1 <= size && size >= 4
    ensures Pow2(d + 1) <= size
  {
  }

  /** auxsort: sorts the stretch in place. Only the smaller part of each split is sorted by recursion, so the depth of
      the recursion is at most the logarithm of the size. */
  method AuxSort<T(!new)>(a: array<T>, less: (T, T) -> bool, l0: int, u0: int) returns (ghost depth: nat)
    requires StrictWeak(less) && 0 <= l0 && u0 < a.Length
    modifies a
    ensures Rearranged(old(a[..]), a[..], l0, u0) && Sorted(less, a[..], l0, u0)
    ensures if Size(l0, u0) > 0 then Pow2(depth) <= Size(l0, u0) else depth == 0
    decreases Size(l0, u0)
  {
    hide Rearranged, SortedAround, Sorted, Split, Below, Above, StrictWeak, Pow2;
    var l, u := l0, u0;
    Pow2Zero();
    depth := 0;
    ghost var s := a[..];
    Start(less, s, l0, u0);
    while l < u
      invariant l0 <= l && u <= u0
      invariant Rearranged(s, a[..], l0, u0) && SortedAround(less, a[..], l0, u0, l, u)
      invariant if Size(l0, u0) > 0 then Pow2(depth) <= Size(l0, u0) else depth == 0
      decreases Size(l, u)
    {
      ghost var t := a[..];
      var done := ChoosePivot(a, less, l, u);
      Progress(less, s, t, a[..], l0, u0, l, u);
      if done {
        Finish(less, a[..], l0, u0, l, u);
        return;
      }
      t := a[..];
      var i := Partition(a, less, l, u);
      Progress(less, s, t, a[..], l0, u0, l, u);
      t := a[..];
      ghost var d;
      ghost var size := Size(l, u);
      if i - l < u - i {
        d := AuxSort(a, less, l, i - 1);
        LeftRound(less, s, t, a[..], l0, u0, l, u, i);
        DepthStep(d, Size(l, i - 1), size);
        l := i + 1;
      } else {
        d := AuxSort(a, less, i + 1, u);
        RightRound(less, s, t, a[..], l0, u0, l, u, i);
        DepthStep(d, Size(i + 1, u), size);
        u := i - 1;
      }
      if d + 1 > depth { depth := d + 1; }
    }
    Finish(less, a[..], l0, u0, l, u);
  }

  lemma Start<T>(less: (T, T) -> bool, s: seq<T>, l0: int, u0: int)
    requires 0 <= l0 && u0 < |s|
    ensures Rearranged(s, s, l0, u0) && SortedAround(less, s, l0, u0, l0, u0)
  {
  }

  lemma Finish<T>(less: (T, T) -> bool, s: seq<T>, l0: int, u0: int, l: int, u: int)
    requires 0 <= l0 <= l && u <= u0 < |s| && SortedAround(less, s, l0, u0, l, u) && (l < u ==> Sorted(less, s, l, u))
    ensures Sorted(less, s, l0, u0)
  {
  }

  /** table.sort on positions 1 to n. */
  method Sort<T(!new)>(a: array<T>, less: (T, T) -> bool, n: nat)
    requires StrictWeak(less) && n < a.Length
    modifies a
    ensures Sorted(less, a[..], 1, n) && Rearranged(old(a[..]), a[..], 1, n)
  {
    ghost var depth := AuxSort(a, less, 1, n);
  }
}
