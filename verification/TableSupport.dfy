/** What the methods of the table object need to know at each step. */
module TableSupport {
  import opened TableModel
  import opened TableInsert
  import opened TableCount
  import opened TableRehash

  /** What luaH_set returns: a place, or one of its errors. */
  datatype SetResult = At(slot: Slot) | NilIndex | Overflow

  /** No keys in the hash part but those that were there and one more. */
  ghost predicate Only(was: seq<Node>, now: seq<Node>, key: Key) {
    forall i :: Live(now, i) ==> now[i].key == key || exists q :: Holds(was, q, now[i].key)
  }

  lemma OnlySelf(node: seq<Node>, key: Key)
    ensures Only(node, node, key)
  {
    forall i | Live(node, i) ensures exists q :: Holds(node, q, node[i].key) { assert Holds(node, i, node[i].key); }
  }

  lemma OnlyInside(was: seq<Node>, now: seq<Node>, key: Key, ks: set<Key>)
    requires Only(was, now, key) && forall i :: Live(was, i) ==> was[i].key in ks
    requires key in ks || forall i :: Live(now, i) ==> now[i].key != key
    ensures forall i :: Live(now, i) ==> now[i].key in ks
  {
    forall i | Live(now, i) ensures now[i].key in ks {
      if now[i].key != key {
        var q :| Holds(was, q, now[i].key);
        assert Live(was, q);
      }
    }
  }

  // ----- newkey

  /** The table while getfreepos's place is not taken yet. */
  lemma NotPackedYet(h: Hasher, t: T, y: Layout, n: int)
    requires Brent(h, t, y) && 0 <= n < |t.node| && !t.dummy && Packed(t.node, n + 1)
    ensures Brent(h, t.(lastfree := n + 1), y)
  {
  }

  lemma BeforeLive(node: seq<Node>, y: Layout, o: int, m: int)
    requires Sized(node, y) && Before(node, y, o, m)
    ensures Live(node, o)
  {
  }

  lemma MissingNot(t: T, k: Key)
    requires Missing(t, k)
    ensures k != NilKey
  {
  }

  lemma MoveShape(node: seq<Node>, m: nat, n: nat, o: nat, k: Key)
    requires Moving(node, m, n, o, k)
    ensures Live(Move(node, m, n, o, k), n)
  {
  }

  lemma MoveIs(node: seq<Node>, n2: seq<Node>, m: nat, n: nat, o: nat, k: Key)
    requires Moving(node, m, n, o, k)
    requires n2 == node[o := node[o].(next := n)][n := node[o := node[o].(next := n)][m]][m := Node(k, Nil, -1)]
    ensures n2 == Move(node, m, n, o, k)
  {
  }

  lemma InsertIs(node: seq<Node>, n2: seq<Node>, m: nat, n: nat, k: Key)
    requires m < |node| && n < |node| && m != n
    requires n2 == node[n := Node(k, node[n].val, node[m].next)][m := node[m].(next := n)]
    ensures n2 == Insert(node, m, n, k)
  {
  }

  lemma OverwriteIs(node: seq<Node>, n2: seq<Node>, m: nat, k: Key)
    requires m < |node| && n2 == node[m := node[m].(key := k)]
    ensures n2 == Overwrite(node, m, k)
  {
  }

  /** The map and the missing keys do not depend on lastfree. */
  lemma LastfreeOnly(t: T, l: int)
    ensures SameMap(t, t.(lastfree := l))
    ensures forall k :: Missing(t, k) == Missing(t.(lastfree := l), k)
  {
  }

  /** The key has a node without a value, and nothing else has changed. */
  ghost predicate Placed(t: T, t2: T, i: nat, key: Key) {
    t2 == t.(node := t2.node) && SlotOf(t2, key, InNode(i)) && SameMap(t, t2) && Only(t.node, t2.node, key)
  }

  /** ... and once it is taken. */
  lemma Taken(h: Hasher, t: T, y: Layout, n2: seq<Node>, y2: Layout, i: nat, k: Key, n: int)
    requires Entered(h, t, y, t.(node := n2), y2, i, k) && t.lastfree == n + 1 && Live(n2, n) && !t.dummy &&
      Missing(t, k)
    ensures Brent(h, t.(node := n2, lastfree := n), y2) &&
      Placed(t.(lastfree := n), t.(node := n2, lastfree := n), i, k)
  {
    hide Ordered, Homes, Lookup;
    LastfreeOnly(t, n);
    LastfreeOnly(t.(node := n2), n);
  }

  lemma Replaced(h: Hasher, t: T, y: Layout, n2: seq<Node>, y2: Layout, i: nat, k: Key)
    requires Entered(h, t, y, t.(node := n2), y2, i, k) && Missing(t, k)
    ensures Brent(h, t.(node := n2), y2) && Placed(t, t.(node := n2), i, k)
  {
    hide Brent, Lookup;
  }

  ghost predicate Before(node: seq<Node>, y: Layout, o: int, m: int)
    requires Sized(node, y)
  {
    Live(node, o) && Live(node, m) && y.head[o] == y.head[m] && y.depth[o] < y.depth[m]
  }

  lemma MainLive(h: Hasher, t: T, y: Layout, m: int)
    requires Brent(h, t, y) && 0 <= m < |t.node| && t.node[m].val != Nil
    ensures Live(t.node, m)
    ensures var o := MainPos(h, t.node[m].key, |t.node|); o != m ==> Before(t.node, y, o, m)
  {
    assert LinkOK(t.node, y, m) && HomeOK(h, t.node, y, m);
    assert OrderOK(t.node, y, MainPos(h, t.node[m].key, |t.node|), m);
  }

  lemma BeforeNext(node: seq<Node>, y: Layout, o: int, m: int)
    requires Ordered(node, y) && Before(node, y, o, m) && node[o].next != m
    ensures 0 <= node[o].next < |node| && Before(node, y, node[o].next, m)
    ensures Deeper(node, y, node[o].next) < Deeper(node, y, o)
  {
    assert OrderOK(node, y, o, m) && LinkOK(node, y, o);
    assert OrderOK(node, y, node[o].next, m);
    DeeperShrinks(node, y, o);
  }

  lemma NotDummy(h: Hasher, t: T, y: Layout, i: int)
    requires Brent(h, t, y) && Live(t.node, i)
    ensures !t.dummy
  {
  }

  // ----- sizes

  lemma LogFits(size: nat)
    requires size > 0
    ensures CeilLog2(size) <= MAXBITS <==> size <= MAXASIZE
  {
    if size <= MAXASIZE { SmallLog(size); } else { BigLog(size); }
  }

  lemma NodesFit(l: nat)
    requires l <= MAXBITS
    ensures Pow2(l) <= MAXASIZE
  {
    Pow2Grows(l, MAXBITS);
    MaxSize();
  }

  // ----- resize

  lemma KeptSlots(t: T, cur: T, nasize: nat)
    requires Partly(t, cur, nasize, nasize, |t.node|) && |t.arr| <= nasize
    ensures Partly(t, cur, nasize, |t.arr|, |t.node|)
  {
    forall k ensures Moved(t, nasize, nasize, |t.node|, k) <==> Moved(t, nasize, |t.arr|, |t.node|, k) {}
  }

  lemma SlotKey(t: T, i: int)
    requires 0 <= i < |t.arr| <= MAXASIZE
    ensures Lookup(t, IntKey(i + 1)) == t.arr[i] && ArrayIndex(IntKey(i + 1)) == i + 1
  {
  }

  lemma NodeKey(h: Hasher, t: T, y: Layout, i: int)
    requires Brent(h, t, y) && 0 <= i < |t.node| && t.node[i].val != Nil
    ensures Live(t.node, i) && Lookup(t, t.node[i].key) == t.node[i].val
  {
    assert LinkOK(t.node, y, i);
    LookupAt(t, i);
  }

  lemma SomeRoom(t: T, nasize: nat, k: Key)
    ensures k in HashKeys(t, nasize) ==> |HashKeys(t, nasize)| > 0
  {
  }

  lemma {:induction false} NodeKeysSize(node: seq<Node>, n: nat)
    requires n <= |node|
    ensures |NodeKeys(node, n)| <= |node| - n
    decreases |node| - n
  {
    if n == |node| {
      assert NodeKeys(node, n) == {};
    } else {
      NodeKeysSize(node, n + 1);
      assert NodeKeys(node, n) == NodeKeys(node, n + 1) + if node[n].val != Nil then {node[n].key} else {};
    }
  }

  /** A growing array part leaves no more keys for the hash part than it has. */
  lemma GrowingKeys(t: T, nasize: nat)
    requires |t.arr| <= nasize && |t.arr| <= MAXASIZE && (t.dummy ==> t.node == [FreeNode()])
    ensures |HashKeys(t, nasize)| <= if t.dummy then 0 else |t.node|
  {
    forall k | k in HashKeys(t, nasize) ensures k in NodeKeys(t.node, 0) {
      if k in ArrayKeys(t.arr, |t.arr|) { ArrayKeysIndex(t.arr, |t.arr|, k); }
    }
    SubsetSize(HashKeys(t, nasize), NodeKeys(t.node, 0));
    NodeKeysSize(t.node, 0);
    if t.dummy { assert NodeKeys(t.node, 0) == {}; }
  }

  // ----- numusearray

  /** Before slice lg: the slots before i are counted. */
  ghost predicate InSlices(arr: seq<Value>, nums: seq<nat>, lg: nat, i: int, ause: int) {
    && 1 <= i <= |arr| + 1
    && Counted(nums, ArrayKeys(arr, i - 1)) && ause == |ArrayKeys(arr, i - 1)|
    && i == if lg == 0 then 1 else if Pow2(lg - 1) <= |arr| then Pow2(lg - 1) + 1 else |arr| + 1
  }

  lemma NoSlots(arr: seq<Value>)
    ensures ArrayKeys(arr, 0) == {}
  {
  }

  lemma SliceStart(arr: seq<Value>)
    ensures InSlices(arr, seq(MAXBITS + 1, _ => 0), 0, 1, 0)
  {
    NoSlots(arr);
    forall i: nat ensures Slice({}, i) == {} {}
  }

  lemma NextKey(arr: seq<Value>, n: int)
    requires 0 <= n < |arr| <= MAXASIZE
    ensures arr[n] != Nil ==> ArrayKeys(arr, n + 1) == ArrayKeys(arr, n) + {IntKey(n + 1)}
    ensures arr[n] == Nil ==> ArrayKeys(arr, n + 1) == ArrayKeys(arr, n)
    ensures IntKey(n + 1) !in ArrayKeys(arr, n)
    ensures |ArrayKeys(arr, n + 1)| == |ArrayKeys(arr, n)| + if arr[n] != Nil then 1 else 0
  {
    forall k | k in ArrayKeys(arr, n) ensures k != IntKey(n + 1) { ArrayKeysIndex(arr, n, k); }
  }

  lemma ArrayKeysIndex(arr: seq<Value>, n: nat, k: Key)
    requires n <= |arr| <= MAXASIZE && k in ArrayKeys(arr, n)
    ensures 1 <= ArrayIndex(k) <= n && arr[ArrayIndex(k) - 1] != Nil && k == IntKey(ArrayIndex(k))
  {
    var i: int :| 0 <= i < n && arr[i] != Nil && k == IntKey(i + 1);
    assert ArrayIndex(k) == i + 1;
  }

  lemma ArrayKeysGrow(arr: seq<Value>, m: nat, n: nat)
    requires m <= n <= |arr|
    ensures ArrayKeys(arr, m) <= ArrayKeys(arr, n)
  {
  }

  /** The slots from first to i - 1 all fall in slice lg. */
  lemma SliceOthers(arr: seq<Value>, lg: nat, m: nat, n: nat, j: nat)
    requires m <= n <= |arr| <= MAXASIZE && n <= Pow2(lg) && (lg > 0 ==> m == n || m == Pow2(lg - 1)) &&
      (lg == 0 ==> m == 0)
    ensures j != lg ==> Slice(ArrayKeys(arr, n), j) == Slice(ArrayKeys(arr, m), j)
  {
    ArrayKeysGrow(arr, m, n);
    if j != lg {
      forall k | k in Slice(ArrayKeys(arr, n), j) ensures k in Slice(ArrayKeys(arr, m), j) {
        ArrayKeysIndex(arr, n, k);
        SliceRange(ArrayIndex(k), lg);
        assert ArrayIndex(k) <= m;
        assert k == IntKey(ArrayIndex(k) - 1 + 1);
      }
    }
  }

  lemma SliceOwn(arr: seq<Value>, lg: nat, m: nat, n: nat)
    requires m <= n <= |arr| <= MAXASIZE && n <= Pow2(lg) && (lg > 0 ==> m == n || m == Pow2(lg - 1)) &&
      (lg == 0 ==> m == 0)
    ensures |Slice(ArrayKeys(arr, n), lg)| == |Slice(ArrayKeys(arr, m), lg)| + |ArrayKeys(arr, n)| - |ArrayKeys(arr, m)|
  {
    ArrayKeysGrow(arr, m, n);
    var new1 := ArrayKeys(arr, n) - ArrayKeys(arr, m);
    forall k | k in new1 ensures k in Slice(ArrayKeys(arr, n), lg) {
      ArrayKeysIndex(arr, n, k);
      assert k == IntKey(ArrayIndex(k) - 1 + 1);
      assert ArrayIndex(k) > m;
      SliceRange(ArrayIndex(k), lg);
    }
    assert Slice(ArrayKeys(arr, n), lg) == Slice(ArrayKeys(arr, m), lg) + new1;
    assert Slice(ArrayKeys(arr, m), lg) !! new1;
    assert ArrayKeys(arr, n) == ArrayKeys(arr, m) + new1;
  }

  lemma SliceCounted(arr: seq<Value>, nums: seq<nat>, lg: nat, m: nat, n: nat, lc: nat)
    requires lg <= MAXBITS && m <= n <= |arr| <= MAXASIZE && n <= Pow2(lg)
    requires (lg > 0 ==> m == n || m == Pow2(lg - 1)) && (lg == 0 ==> m == 0)
    requires Counted(nums, ArrayKeys(arr, m)) && lc == |ArrayKeys(arr, n)| - |ArrayKeys(arr, m)|
    ensures Counted(nums[lg := nums[lg] + lc], ArrayKeys(arr, n))
  {
    hide Slice, ArrayKeys, Pow2;
    SliceOwn(arr, lg, m, n);
    forall j | 0 <= j <= MAXBITS ensures nums[lg := nums[lg] + lc][j] == |Slice(ArrayKeys(arr, n), j)| {
      SliceOthers(arr, lg, m, n, j);
    }
  }

  lemma SliceDone(arr: seq<Value>, nums: seq<nat>, lg: nat, first: int, i: int, ause: int, lc: int)
    requires lg <= MAXBITS && |arr| <= MAXASIZE && InSlices(arr, nums, lg, first, ause)
    requires first <= i && i - 1 == if Pow2(lg) > |arr| then |arr| else Pow2(lg)
    requires lc == |ArrayKeys(arr, i - 1)| - |ArrayKeys(arr, first - 1)|
    ensures lc >= 0 && |nums| == MAXBITS + 1 && InSlices(arr, nums[lg := nums[lg] + lc], lg + 1, i, ause + lc)
  {
    hide Slice, ArrayKeys, Pow2;
    ArrayKeysGrow(arr, first - 1, i - 1);
    SubsetSize(ArrayKeys(arr, first - 1), ArrayKeys(arr, i - 1));
    SliceCounted(arr, nums, lg, first - 1, i - 1, lc);
  }

  lemma PowFirst()
    ensures Pow2(0) == 1
  {
  }

  lemma SliceBounds(arr: seq<Value>, nums: seq<nat>, lg: nat, i: int, ause: int)
    requires InSlices(arr, nums, lg, i, ause)
    ensures 1 <= i <= |arr| + 1 && Pow2(lg + 1) == 2 * Pow2(lg)
    ensures Pow2(lg) <= |arr| ==> i <= Pow2(lg) + 1
  {
    hide Counted, ArrayKeys;
    if lg > 0 { Pow2Grows(lg - 1, lg); }
  }

  lemma SlicesEnd(arr: seq<Value>, nums: seq<nat>, lg: nat, i: int, ause: int)
    requires InSlices(arr, nums, lg, i, ause) && i > |arr|
    ensures Counted(nums, ArrayKeys(arr, |arr|)) && ause == |ArrayKeys(arr, |arr|)|
  {
  }

  lemma SlicesAll(arr: seq<Value>, nums: seq<nat>, i: int, ause: int)
    requires InSlices(arr, nums, MAXBITS + 1, i, ause) && |arr| <= MAXASIZE
    ensures Counted(nums, ArrayKeys(arr, |arr|)) && ause == |ArrayKeys(arr, |arr|)|
  {
    MaxSize();
  }

  // ----- numusehash

  lemma NoKeys(node: seq<Node>)
    ensures NodeKeys(node, |node|) == {} && Upto({}, MAXASIZE) == {}
  {
  }

  lemma UptoAdd(s: set<Key>, k: Key, x: nat)
    requires k !in s
    ensures |Upto(s + {k}, x)| == |Upto(s, x)| + if 1 <= ArrayIndex(k) <= x then 1 else 0
  {
    if 1 <= ArrayIndex(k) <= x {
      assert Upto(s + {k}, x) == Upto(s, x) + {k};
    } else {
      assert Upto(s + {k}, x) == Upto(s, x);
    }
  }

  lemma NodeKeysStep(node: seq<Node>, y: Layout, i: nat, s: set<Key>)
    requires Ordered(node, y) && Unique(node) && i < |node| && s !! NodeKeys(node, 0)
    ensures node[i].val == Nil ==> NodeKeys(node, i) == NodeKeys(node, i + 1)
    ensures node[i].val != Nil ==>
              && node[i].key !in s + NodeKeys(node, i + 1)
              && NodeKeys(node, i) == NodeKeys(node, i + 1) + {node[i].key}
              && |NodeKeys(node, i)| == |NodeKeys(node, i + 1)| + 1
              && |Upto(NodeKeys(node, i), MAXASIZE)| ==
                 |Upto(NodeKeys(node, i + 1), MAXASIZE)| + if 1 <= ArrayIndex(node[i].key) <= MAXASIZE then 1 else 0
  {
    if node[i].val != Nil {
      assert LinkOK(node, y, i);
      assert node[i].key in NodeKeys(node, 0);
      forall j | i + 1 <= j < |node| && node[j].val != Nil ensures node[j].key != node[i].key {
        assert LinkOK(node, y, j) && Live(node, i) && Live(node, j);
      }
      assert NodeKeys(node, i) == NodeKeys(node, i + 1) + {node[i].key};
      UptoAdd(NodeKeys(node, i + 1), node[i].key, MAXASIZE);
    } else {
      assert NodeKeys(node, i) == NodeKeys(node, i + 1);
    }
  }

  // ----- rehash

  lemma KeysApart(h: Hasher, t: T, y: Layout)
    requires Brent(h, t, y) && |t.arr| <= MAXASIZE
    ensures ArrayKeys(t.arr, |t.arr|) !! NodeKeys(t.node, 0)
  {
    forall k | k in ArrayKeys(t.arr, |t.arr|) ensures k !in NodeKeys(t.node, 0) {
      ArrayKeysIndex(t.arr, |t.arr|, k);
      forall i | 0 <= i < |t.node| && t.node[i].val != Nil ensures t.node[i].key != k {
        assert LinkOK(t.node, y, i) && Live(t.node, i);
      }
    }
  }

  lemma MissingKey(t: T, k: Key)
    requires Missing(t, k) && |t.arr| <= MAXASIZE
    ensures k !in ArrayKeys(t.arr, |t.arr|) + NodeKeys(t.node, 0)
  {
    if k in ArrayKeys(t.arr, |t.arr|) { ArrayKeysIndex(t.arr, |t.arr|, k); }
    forall i | 0 <= i < |t.node| ensures t.node[i].key != k { assert !Holds(t.node, i, k); }
  }

  /** The counts of rehash, put together. */
  lemma TotalUse(t: T, k: Key)
    requires |t.arr| <= MAXASIZE && k !in Keys(t) && ArrayKeys(t.arr, |t.arr|) !! NodeKeys(t.node, 0)
    ensures var a, b := ArrayKeys(t.arr, |t.arr|), NodeKeys(t.node, 0);
            && |a + b + {k}| == |a| + |b| + 1
            && |Upto(a + b + {k}, MAXASIZE)| == |a| + |Upto(b, MAXASIZE)| + if 1 <= ArrayIndex(k) <= MAXASIZE then 1
               else 0
  {
    var a, b := ArrayKeys(t.arr, |t.arr|), NodeKeys(t.node, 0);
    forall q | q in a ensures q in Upto(a, MAXASIZE) { ArrayKeysIndex(t.arr, |t.arr|, q); }
    assert Upto(a + b, MAXASIZE) == a + Upto(b, MAXASIZE);
    UptoAdd(a + b, k, MAXASIZE);
  }

  /** What is left for the hash part. */
  lemma HashUse(t: T, k: Key, n: nat)
    requires k !in Keys(t)
    ensures |HashKeys(t, n)| + (if 1 <= ArrayIndex(k) <= n then 0 else 1) == |Keys(t) + {k}| - |Upto(Keys(t) + {k}, n)|
  {
    UptoAdd(Keys(t), k, n);
    assert Keys(t) == HashKeys(t, n) + Upto(Keys(t), n);
    assert HashKeys(t, n) !! Upto(Keys(t), n);
  }

  lemma RoomForKey(t: T, cur: T, n: nat, k: Key)
    requires k !in Keys(t) && |cur.arr| == n && Unique(cur.node) && k != NilKey
    requires forall i :: Live(cur.node, i) ==> cur.node[i].key in HashKeys(t, n)
    requires |HashKeys(t, n)| + (if 1 <= ArrayIndex(k) <= n then 0 else 1) <= |cur.node|
    ensures InArray(cur.arr, k) || HasFree(cur.node)
  {
    if !InArray(cur.arr, k) {
      forall i ensures !Holds(cur.node, i, k) { if Holds(cur.node, i, k) { assert Live(cur.node, i); } }
      RoomLeft(cur.node, HashKeys(t, n) + {k}, k);
    }
  }

  // ----- overflow

  /** How many nodes rehash wants for the table's keys and the new one. */
  ghost function NodesNeeded(t: T, k: Key): int {
    |Keys(t) + {k}| - |Upto(Keys(t) + {k}, BestSize(Keys(t) + {k}))|
  }

  /** The key finds no node, and the nodes its table would need are too many. */
  ghost predicate Crowded(h: Hasher, t: T, k: Key)
    requires |t.node| > 0
  {
    && (t.dummy || (t.node[MainPos(h, k, |t.node|)].val != Nil && !HasFree(t.node)))
    && NodesNeeded(t, k) > MAXASIZE
  }

  /** What the error leaves: an array part that has been enlarged already, and the old nodes. */
  ghost predicate Enlarged(t: T, t2: T, n: nat) {
    && t2.node == t.node && t2.dummy == t.dummy
    && |t2.arr| == (if n > |t.arr| then n else |t.arr|)
    && t2.arr[..|t.arr|] == t.arr
    && forall i :: |t.arr| <= i < |t2.arr| ==> t2.arr[i] == Nil
  }

  lemma NodesNeededOnly(t: T, l: int, k: Key)
    ensures NodesNeeded(t.(lastfree := l), k) == NodesNeeded(t, k) && Keys(t.(lastfree := l)) == Keys(t)
    ensures forall t2, n :: Enlarged(t.(lastfree := l), t2, n) == Enlarged(t, t2, n)
  {
    assert Keys(t.(lastfree := l)) == Keys(t);
  }

  /** The keys in the nodes other than i. */
  lemma {:induction false} NodeKeysFewer(node: seq<Node>, i: nat, n: nat)
    requires n <= i < |node|
    ensures |NodeKeys(node, n) - {node[i].key}| <= |node| - n - 1
    decreases i - n
  {
    var rest := NodeKeys(node, n + 1);
    if n == i {
      NodeKeysSize(node, i + 1);
      SubsetSize(NodeKeys(node, i) - {node[i].key}, rest);
    } else {
      NodeKeysFewer(node, i, n + 1);
      SubsetSize(NodeKeys(node, n) - {node[i].key}, rest - {node[i].key} + {node[n].key});
    }
  }

  /** A key whose place would be in the new part of the array makes the other keys fit into as many nodes as there
      are: it is in the array part then, or its node has no value. */
  lemma NotCrowded(t: T, k: Key, i: nat, n: nat)
    requires i < |t.node| && |t.arr| <= MAXASIZE && |t.arr| < ArrayIndex(t.node[i].key) <= n
    ensures |Keys(t) + {k}| - |Upto(Keys(t) + {k}, n)| <= |t.node|
  {
    var s, other := Keys(t) + {k}, NodeKeys(t.node, 0) - {t.node[i].key};
    forall q | q in s - Upto(s, n) ensures q in other + {k} {
      if q in ArrayKeys(t.arr, |t.arr|) { ArrayKeysIndex(t.arr, |t.arr|, q); }
    }
    SubsetSize(s - Upto(s, n), other + {k});
    NodeKeysFewer(t.node, i, 0);
    assert s == s - Upto(s, n) + Upto(s, n);
  }

  /** The error leaves a table in order with the same map: what the array part has been enlarged by belongs to no key
      of the hash part. */
  lemma OverflowKeeps(h: Hasher, t: T, t2: T, y: Layout, k: Key)
    requires Brent(h, t, y) && |t.arr| <= MAXASIZE && |t.node| <= MAXASIZE && NodesNeeded(t, k) > MAXASIZE
    requires BestSize(Keys(t) + {k}) <= MAXASIZE && Enlarged(t, t2, BestSize(Keys(t) + {k})) &&
      t2.lastfree == t.lastfree
    ensures Brent(h, t2, y) && SameMap(t, t2) && |t2.arr| <= MAXASIZE
  {
    hide Ordered, Homes, Unique, Packed, Keys, Upto, BestSize;
    forall i | Live(t.node, i) ensures !InArray(t2.arr, t.node[i].key) {
      if InArray(t2.arr, t.node[i].key) { NotCrowded(t, k, i, BestSize(Keys(t) + {k})); }
    }
    forall q ensures Lookup(t2, q) == Lookup(t, q) {
      if InArray(t.arr, q) { assert t2.arr[ArrayIndex(q) - 1] == t2.arr[..|t.arr|][ArrayIndex(q) - 1]; }
      if q != NilKey && Find(t.node, q) != -1 { assert Live(t.node, Find(t.node, q)); }
    }
  }
}
