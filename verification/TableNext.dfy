/** Traversing a table with luaH_next, and the border luaH_getn finds. */
module TableNext {
  import opened TableModel
  import opened TableInsert
  import opened TableCount
  import opened TableRehash
  import opened TableSupport

  /** What luaH_next returns: an entry, the end, or the error "invalid key to 'next'". */
  datatype NextResult = Entry(k: Key, v: Value) | Done | BadKey

  // ----- positions: first the array part, then the nodes

  function Total(t: T): nat { |t.arr| + |t.node| }

  function ValAt(t: T, p: nat): Value
    requires p < Total(t)
  {
    if p < |t.arr| then t.arr[p] else t.node[p - |t.arr|].val
  }

  function KeyAt(t: T, p: nat): Key
    requires p < Total(t)
  {
    if p < |t.arr| then IntKey(p + 1) else t.node[p - |t.arr|].key
  }

  ghost predicate Known(t: T, k: Key) {
    k == NilKey || InArray(t.arr, k) || exists i :: Holds(t.node, i, k)
  }

  /** findindex. */
  ghost function PosOf(t: T, k: Key): int {
    if k == NilKey then -1 else if InArray(t.arr, k) then ArrayIndex(k) - 1 else |t.arr| + Find(t.node, k)
  }

  /** The first entry with a value after position p. */
  ghost predicate NextOf(t: T, p: int, r: NextResult) {
    match r
    case Entry(k, v) =>
      exists q :: p < q < Total(t) && 0 <= q && IsEntry(t, q, k, v) && EmptyBetween(t, p, q)
    case Done => EmptyBetween(t, p, Total(t))
    case BadKey => false
  }

  ghost predicate IsEntry(t: T, q: int, k: Key, v: Value) {
    0 <= q < Total(t) && k == KeyAt(t, q) && v == ValAt(t, q) && v != Nil
  }

  ghost predicate EmptyBetween(t: T, p: int, q: int) {
    forall i: nat :: p < i < q && i < Total(t) ==> ValAt(t, i) == Nil
  }

  // ----- a table that is only assigned to at existing entries

  ghost predicate Sound(t: T) {
    && Unique(t.node) && Apart(t.arr, t.node) && |t.arr| <= MAXASIZE
    && forall i :: 0 <= i < |t.node| && !Live(t.node, i) ==> t.node[i].val == Nil
  }

  ghost predicate SameSkeleton(t: T, t2: T) {
    && |t2.arr| == |t.arr| && |t2.node| == |t.node|
    && forall i :: 0 <= i < |t.node| ==> t2.node[i].key == t.node[i].key
  }

  /** An entry is at the position of its key, and its value is the key's. */
  lemma EntryPos(t: T, p: nat, k: Key, v: Value)
    requires Sound(t) && p < Total(t) && IsEntry(t, p, k, v)
    ensures k != NilKey && PosOf(t, k) == p && Lookup(t, k) == v
  {
    if p >= |t.arr| {
      var i := p - |t.arr|;
      assert Live(t.node, i) && Holds(t.node, i, k);
      assert Live(t.node, Find(t.node, k));
    } else {
      assert ArrayIndex(k) == p + 1;
    }
  }

  lemma KeyPos(t: T, k: Key)
    requires Sound(t) && Lookup(t, k) != Nil
    ensures 0 <= PosOf(t, k) < Total(t) && IsEntry(t, PosOf(t, k), k, Lookup(t, k))
  {
    if InArray(t.arr, k) { assert k == IntKey(ArrayIndex(k)); }
  }

  lemma SamePos(t: T, t2: T, k: Key)
    requires Sound(t) && Sound(t2) && SameSkeleton(t, t2) && Known(t, k)
    ensures PosOf(t2, k) == PosOf(t, k) && Known(t2, k)
  {
    if k != NilKey && !InArray(t.arr, k) {
      var i :| Holds(t.node, i, k);
      assert Holds(t2.node, i, k) && Live(t2.node, i) && Live(t.node, i);
      assert Live(t.node, Find(t.node, k)) && Live(t2.node, Find(t2.node, k));
    }
  }

  /** Calls of luaH_next, each with the key of the entry before, while values of existing entries change. */
  ghost predicate Traversal(ts: seq<T>, rs: seq<NextResult>) {
    && |ts| == |rs|
    && (forall i :: 0 <= i < |ts| ==> Sound(ts[i]) && SameSkeleton(ts[0], ts[i]))
    && (forall i :: 0 <= i < |rs| - 1 ==> rs[i].Entry?)
    && forall i :: 0 <= i < |rs| ==> StepOK(ts, rs, i)
  }

  ghost predicate StepOK(ts: seq<T>, rs: seq<NextResult>, i: int)
    requires 0 <= i < |rs| == |ts|
  {
    NextOf(ts[i], if i > 0 && rs[i - 1].Entry? then PosOf(ts[i], rs[i - 1].k) else -1, rs[i])
  }

  /** Where the i-th entry of a traversal is. */
  ghost function At(ts: seq<T>, rs: seq<NextResult>, i: int): int
    requires 0 <= i < |rs| == |ts|
  {
    if rs[i].Entry? then PosOf(ts[i], rs[i].k) else Total(ts[i])
  }

  lemma StepPos(ts: seq<T>, rs: seq<NextResult>, i: int)
    requires Traversal(ts, rs) && 0 <= i < |rs|
    ensures !rs[i].BadKey?
    ensures (if i == 0 then -1 else At(ts, rs, i - 1)) < At(ts, rs, i) <= Total(ts[0])
    ensures EmptyBetween(ts[i], if i == 0 then -1 else At(ts, rs, i - 1), At(ts, rs, i))
    ensures rs[i].Entry? ==> IsEntry(ts[i], At(ts, rs, i), rs[i].k, rs[i].v) && Lookup(ts[i], rs[i].k) == rs[i].v != Nil
  {
    assert StepOK(ts, rs, i) && Sound(ts[i]) && SameSkeleton(ts[0], ts[i]);
    if i > 0 {
      StepEntry(ts, rs, i - 1);
      assert Sound(ts[i - 1]) && SameSkeleton(ts[0], ts[i - 1]);
      SamePos(ts[i - 1], ts[i], rs[i - 1].k);
    }
    if rs[i].Entry? { StepEntry(ts, rs, i); }
  }

  lemma StepEntry(ts: seq<T>, rs: seq<NextResult>, i: int)
    requires Traversal(ts, rs) && 0 <= i < |rs| && rs[i].Entry?
    ensures var p := if i > 0 && rs[i - 1].Entry? then PosOf(ts[i], rs[i - 1].k) else -1;
            && p < At(ts, rs, i) < Total(ts[i]) && 0 <= At(ts, rs, i)
            && IsEntry(ts[i], At(ts, rs, i), rs[i].k, rs[i].v)
            && EmptyBetween(ts[i], p, At(ts, rs, i))
    ensures Known(ts[i], rs[i].k) && Lookup(ts[i], rs[i].k) == rs[i].v
  {
    assert StepOK(ts, rs, i) && Sound(ts[i]);
    var p := if i > 0 && rs[i - 1].Entry? then PosOf(ts[i], rs[i - 1].k) else -1;
    var q: nat :| p < q < Total(ts[i]) && IsEntry(ts[i], q, rs[i].k, rs[i].v) && EmptyBetween(ts[i], p, q);
    EntryPos(ts[i], q, rs[i].k, rs[i].v);
    if q >= |ts[i].arr| { assert Holds(ts[i].node, q - |ts[i].arr|, rs[i].k); }
  }

  /** No entry is visited twice, and a traversal is no longer than the table. */
  lemma {:induction false} TraversalAdvances(ts: seq<T>, rs: seq<NextResult>, i: int, j: int)
    requires Traversal(ts, rs) && 0 <= i < j < |rs|
    ensures At(ts, rs, i) < At(ts, rs, j)
    decreases j
  {
    StepPos(ts, rs, j);
    if i < j - 1 { TraversalAdvances(ts, rs, i, j - 1); }
  }

  lemma {:induction false} TraversalBounded(ts: seq<T>, rs: seq<NextResult>, j: int)
    requires Traversal(ts, rs) && 0 <= j < |rs|
    ensures j <= At(ts, rs, j)
    decreases j
  {
    StepPos(ts, rs, j);
    if j > 0 { TraversalBounded(ts, rs, j - 1); }
  }

  lemma TraversalOnce(ts: seq<T>, rs: seq<NextResult>)
    requires Traversal(ts, rs)
    ensures forall i, j :: 0 <= i < j < |rs| && rs[i].Entry? && rs[j].Entry? ==> rs[i].k != rs[j].k
    ensures rs != [] ==> |rs| <= Total(ts[0]) + 1
  {
    forall i, j | 0 <= i < j < |rs| && rs[i].Entry? && rs[j].Entry? ensures rs[i].k != rs[j].k {
      TraversalAdvances(ts, rs, i, j);
      StepEntry(ts, rs, i);
      assert Sound(ts[i]) && Sound(ts[j]) && SameSkeleton(ts[0], ts[i]) && SameSkeleton(ts[0], ts[j]);
      if rs[i].k == rs[j].k { SamePos(ts[i], ts[j], rs[i].k); }
    }
    if rs != [] {
      TraversalBounded(ts, rs, |rs| - 1);
      StepPos(ts, rs, |rs| - 1);
    }
  }

  /** The step of a traversal that passes a position. */
  lemma {:induction false} Passing(ts: seq<T>, rs: seq<NextResult>, p: nat, n: int) returns (i: int)
    requires Traversal(ts, rs) && 0 <= n < |rs| && p <= At(ts, rs, n)
    ensures 0 <= i <= n && (i > 0 ==> At(ts, rs, i - 1) < p) && p <= At(ts, rs, i)
    decreases n
  {
    if n > 0 && p <= At(ts, rs, n - 1) { i := Passing(ts, rs, p, n - 1); } else { i := n; }
  }

  /** A finished traversal has visited every key that had a value all the time, with its value at that moment. */
  lemma TraversalComplete(ts: seq<T>, rs: seq<NextResult>, k: Key)
    requires Traversal(ts, rs) && rs != [] && rs[|rs| - 1] == Done
    requires forall i :: 0 <= i < |ts| ==> Lookup(ts[i], k) != Nil
    ensures exists i :: 0 <= i < |rs| && rs[i] == Entry(k, Lookup(ts[i], k))
  {
    assert Sound(ts[0]);
    assert Lookup(ts[0], k) != Nil;
    KeyPos(ts[0], k);
    var p := PosOf(ts[0], k);
    assert SameSkeleton(ts[0], ts[|ts| - 1]);
    var i := Passing(ts, rs, p, |rs| - 1);
    assert Sound(ts[i]) && SameSkeleton(ts[0], ts[i]) && Lookup(ts[i], k) != Nil;
    KeyPos(ts[i], k);
    KeyKnown(ts[0], k);
    SamePos(ts[0], ts[i], k);
    StepPos(ts, rs, i);
    assert ValAt(ts[i], p) != Nil;
    assert At(ts, rs, i) == p;
    assert rs[i].Entry?;
  }

  lemma KeyKnown(t: T, k: Key)
    requires Lookup(t, k) != Nil
    ensures Known(t, k)
  {
  }

  // ----- the border

  /** luaH_getn promises an index r such that t[r] is not nil, or r is 0, and t[r + 1] is nil. */
  ghost predicate Border(t: T, r: int) {
    r >= 0 && (r > 0 ==> Lookup(t, IntKey(r)) != Nil) && Lookup(t, IntKey(r + 1)) == Nil
  }

  lemma DummyBorder(h: Hasher, t: T, y: Layout)
    requires Brent(h, t, y) && t.dummy && |t.arr| <= MAXASIZE
    ensures Lookup(t, IntKey(|t.arr| + 1)) == Nil
  {
    assert ArrayIndex(IntKey(|t.arr| + 1)) == |t.arr| + 1;
    LookupNone(t, IntKey(|t.arr| + 1));
  }

  lemma {:induction false} RangeExact(x: nat)
    ensures |Range(x)| == x
  {
    if x > 0 {
      RangeExact(x - 1);
      assert Range(x) == Range(x - 1) + {IntKey(x)};
      forall i: int | 1 <= i <= x - 1 ensures IntKey(i) != IntKey(x) { DifferentKeys(i, x); }
      assert IntKey(x) !in Range(x - 1);
    } else {
      assert Range(0) == {};
    }
  }

  lemma DifferentKeys(i: int, j: int)
    requires i != j
    ensures IntKey(i) != IntKey(j)
  {
    assert (i as real).Floor == i && (j as real).Floor == j;
  }

  /** The keys 1 to n cannot all have values if the table is smaller. */
  lemma FewKeys(t: T, n: nat)
    requires Sound(t) && forall i: int :: 1 <= i <= n ==> Lookup(t, IntKey(i)) != Nil
    ensures n <= Total(t)
  {
    forall k | k in Range(n) ensures k in Keys(t) { KeysLookup(t, k); }
    SubsetSize(Range(n), Keys(t));
    RangeExact(n);
    NodeKeysSize(t.node, 0);
    ArrayKeysSize(t.arr, |t.arr|);
    assert |Keys(t)| <= |ArrayKeys(t.arr, |t.arr|)| + |NodeKeys(t.node, 0)|;
  }

  lemma {:induction false} ArrayKeysSize(arr: seq<Value>, n: nat)
    requires n <= |arr| <= MAXASIZE
    ensures |ArrayKeys(arr, n)| <= n
  {
    if n > 0 { ArrayKeysSize(arr, n - 1); NextKey(arr, n - 1); } else { NoSlots(arr); }
  }

  lemma BrentSound(h: Hasher, t: T, y: Layout)
    requires Brent(h, t, y) && |t.arr| <= MAXASIZE
    ensures Sound(t)
  {
    BrentParts(h, t, y);
    FreeValues(t, y);
  }
}
