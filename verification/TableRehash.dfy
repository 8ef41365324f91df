/** Places of values, searches, storing, and moving every entry to new vectors. */
module TableRehash {
  import opened TableModel
  import opened TableInsert
  import opened TableCount

  /** Where luaH_get and luaH_set find a value. */
  datatype Slot = InArr(i: nat) | InNode(i: nat) | Absent

  ghost predicate SlotOf(t: T, k: Key, s: Slot) {
    match s
    case InArr(i) => InArray(t.arr, k) && i == ArrayIndex(k) - 1
    case InNode(i) => k != NilKey && !InArray(t.arr, k) && Holds(t.node, i, k)
    case Absent => k == NilKey || Missing(t, k)
  }

  ghost function Read(t: T, s: Slot): Value {
    match s
    case InArr(i) => if i < |t.arr| then t.arr[i] else Nil
    case InNode(i) => if i < |t.node| then t.node[i].val else Nil
    case Absent => Nil
  }

  lemma SlotValue(t: T, k: Key, s: Slot)
    requires Unique(t.node) && Apart(t.arr, t.node) && SlotOf(t, k, s)
    ensures Lookup(t, k) == Read(t, s)
  {
    match s
    case InArr(i) =>
    case InNode(i) => assert Live(t.node, i); LookupAt(t, i);
    case Absent => if k != NilKey { LookupNone(t, k); }
  }

  // ----- searching a chain

  /** If the key is anywhere in the hash part, it is at n or deeper on its chain. */
  ghost predicate Ahead(node: seq<Node>, y: Layout, n: int, k: Key)
    requires Sized(node, y) && 0 <= n < |node|
  {
    (Live(node, n) || node[n].next == -1)
    && forall j :: Holds(node, j, k) ==> Live(node, n) && y.head[j] == y.head[n] && y.depth[n] <= y.depth[j]
  }

  lemma ChainStart(h: Hasher, node: seq<Node>, y: Layout, k: Key)
    requires |node| > 0 && Ordered(node, y) && Homes(h, node, y) && k != NilKey
    ensures Ahead(node, y, MainPos(h, k, |node|), k)
  {
    var n := MainPos(h, k, |node|);
    assert LinkOK(node, y, n);
    forall j | Holds(node, j, k) ensures Live(node, n) && y.head[j] == y.head[n] && y.depth[n] <= y.depth[j] {
      assert HomeOK(h, node, y, j);
    }
  }

  lemma ChainNext(node: seq<Node>, y: Layout, n: int, k: Key)
    requires Ordered(node, y) && 0 <= n < |node| && Ahead(node, y, n, k) && node[n].key != k && k != NilKey
    ensures node[n].next == -1 ==> forall j :: !Holds(node, j, k)
    ensures node[n].next != -1 ==>
              && 0 <= node[n].next < |node| && Ahead(node, y, node[n].next, k)
              && Deeper(node, y, node[n].next) < Deeper(node, y, n)
  {
    assert LinkOK(node, y, n);
    if node[n].next != -1 { DeeperShrinks(node, y, n); }
    forall j | Holds(node, j, k)
      ensures node[n].next != -1 && Live(node, node[n].next)
      ensures y.head[j] == y.head[node[n].next] && y.depth[node[n].next] <= y.depth[j]
    {
      assert OrderOK(node, y, n, j);
    }
  }

  // ----- storing

  ghost predicate StoredIn(t: T, t2: T, s: Slot, v: Value) {
    match s
    case InArr(i) => i < |t.arr| && t2 == t.(arr := t.arr[i := v])
    case InNode(i) => i < |t.node| && t2 == t.(node := t.node[i := t.node[i].(val := v)])
    case Absent => false
  }

  lemma StoreNode(h: Hasher, t: T, y: Layout, i: nat, v: Value)
    requires Brent(h, t, y) && !t.dummy && Live(t.node, i)
    ensures Brent(h, t.(node := t.node[i := t.node[i].(val := v)]), y)
  {
    var n2 := t.node[i := t.node[i].(val := v)];
    assert forall j :: Live(n2, j) <==> Live(t.node, j);
    forall j | 0 <= j < |n2| ensures LinkOK(n2, y, j) { assert LinkOK(t.node, y, j); }
    forall j, q | 0 <= j < |n2| && 0 <= q < |n2| ensures OrderOK(n2, y, j, q) { assert OrderOK(t.node, y, j, q); }
    forall j | 0 <= j < |n2| ensures HomeOK(h, n2, y, j) { assert HomeOK(h, t.node, y, j); }
  }

  lemma StoreLookup(t: T, t2: T, k: Key, s: Slot, v: Value, q: Key)
    requires Unique(t.node) && Apart(t.arr, t.node) && SlotOf(t, k, s) && StoredIn(t, t2, s, v)
    ensures Lookup(t2, q) == if q == k then v else Lookup(t, q)
  {
    match s
    case InArr(i) =>
      if q != NilKey && !InArray(t.arr, q) {
        if j :| Holds(t.node, j, q) {
          assert Live(t.node, j);
          LookupAt(t, j);
          LookupAt(t2, j);
        } else {
          LookupNone(t, q);
          LookupNone(t2, q);
        }
      } else if q != k && q != NilKey {
        assert q == IntKey(ArrayIndex(q)) && k == IntKey(ArrayIndex(k));
      }
    case InNode(i) =>
      assert forall j :: Live(t2.node, j) <==> Live(t.node, j);
      if q != NilKey && !InArray(t.arr, q) {
        if j :| Holds(t.node, j, q) {
          assert Live(t.node, j) && Live(t.node, i);
          LookupAt(t, j);
          assert Live(t2.node, j);
          LookupAt(t2, j);
        } else {
          LookupNone(t, q);
          forall j ensures !Holds(t2.node, j, q) { if Holds(t2.node, j, q) { assert Holds(t.node, j, q); } }
          LookupNone(t2, q);
        }
      }
  }

  // ----- a new, empty hash part

  function FreeNode(): Node { Node(NilKey, Nil, -1) }

  ghost predicate AllFree(node: seq<Node>) { forall i :: 0 <= i < |node| ==> node[i] == FreeNode() }

  ghost function FreeLayout(n: nat): Layout { Layout(seq(n, i => 0), seq(n, i => 0.0), 0) }

  lemma FreeBrent(h: Hasher, t: T, y: Layout)
    requires |t.node| > 0 && AllFree(t.node) && y == FreeLayout(|t.node|)
    requires if t.dummy then |t.node| == 1 && t.lastfree <= 0 else t.lastfree == |t.node|
    ensures Brent(h, t, y)
  {
    if t.dummy { assert t.node == [FreeNode()]; }
  }

  lemma FreeLookup(t: T, k: Key)
    requires AllFree(t.node)
    ensures Lookup(t, k) == if k != NilKey && InArray(t.arr, k) then t.arr[ArrayIndex(k) - 1] else Nil
  {
    if k != NilKey && !InArray(t.arr, k) { LookupNone(t, k); }
  }

  // ----- room

  ghost predicate HasFree(node: seq<Node>) { exists i :: 0 <= i < |node| && !Live(node, i) }

  ghost function KeysBelow(node: seq<Node>, n: nat): set<Key>
    requires n <= |node|
  {
    set i: int | 0 <= i < n :: node[i].key
  }

  lemma {:induction false} KeysBelowSize(node: seq<Node>, n: nat)
    requires n <= |node| && Unique(node) && forall i :: 0 <= i < |node| ==> Live(node, i)
    ensures |KeysBelow(node, n)| == n
  {
    if n > 0 {
      KeysBelowSize(node, n - 1);
      var k := node[n - 1].key;
      forall i | 0 <= i < n - 1 ensures node[i].key != k { assert Live(node, i) && Live(node, n - 1); }
      assert KeysBelow(node, n) == KeysBelow(node, n - 1) + {k};
    }
  }

  /** A hash part with room for all the keys of ks has a free node while one of them is missing. */
  lemma RoomLeft(node: seq<Node>, ks: set<Key>, k: Key)
    requires Unique(node) && (forall i :: Live(node, i) ==> node[i].key in ks)
    requires k in ks && |ks| <= |node| && forall i :: !Holds(node, i, k)
    ensures HasFree(node)
  {
    if !HasFree(node) {
      assert forall i :: 0 <= i < |node| ==> Live(node, i);
      KeysBelowSize(node, |node|);
      var all := KeysBelow(node, |node|);
      assert all <= ks - {k} by {
        forall q | q in all ensures q in ks - {k} {
          var i :| 0 <= i < |node| && node[i].key == q;
          assert Live(node, i) && !Holds(node, i, k);
        }
      }
      SubsetSize(all, ks - {k});
    }
  }

  // ----- moving the entries of t to new vectors

  /** The entries that have a place already: those the array part keeps, those before slot a of the part it
      loses, and those in nodes from b on. */
  ghost predicate Moved(t: T, nasize: nat, a: int, b: int, k: Key) {
    && k != NilKey
    && (if InArray(t.arr, k) then ArrayIndex(k) <= nasize || ArrayIndex(k) <= a
        else exists i :: b <= i < |t.node| && Holds(t.node, i, k))
  }

  ghost predicate Partly(t: T, cur: T, nasize: nat, a: int, b: int) {
    && (forall k :: Lookup(cur, k) == if Moved(t, nasize, a, b, k) then Lookup(t, k) else Nil)
    && (forall i :: Live(cur.node, i) ==> cur.node[i].key in HashKeys(t, nasize))
  }

  lemma PartlyKeys(t: T, cur: T, nasize: nat, a: int, b: int)
    requires Partly(t, cur, nasize, a, b)
    ensures forall i :: Live(cur.node, i) ==> cur.node[i].key in HashKeys(t, nasize)
  {
    hide Lookup, HashKeys;
  }

  /** The new vectors before anything is moved. */
  ghost predicate Cleared(t: T, cur: T, nasize: nat) {
    && AllFree(cur.node) && |cur.arr| == nasize
    && forall i :: 0 <= i < nasize ==> cur.arr[i] == if i < |t.arr| then t.arr[i] else Nil
  }

  lemma ClearedPartly(t: T, cur: T, nasize: nat)
    requires Cleared(t, cur, nasize)
    ensures Partly(t, cur, nasize, nasize, |t.node|)
  {
    forall k ensures Lookup(cur, k) == if Moved(t, nasize, nasize, |t.node|, k) then Lookup(t, k) else Nil {
      FreeLookup(cur, k);
    }
  }

  /** Keys with a value are the keys counted. */
  lemma KeysLookup(t: T, k: Key)
    requires Unique(t.node) && Apart(t.arr, t.node)
    requires forall i :: 0 <= i < |t.node| && !Live(t.node, i) ==> t.node[i].val == Nil
    requires |t.arr| <= MAXASIZE
    ensures k in Keys(t) <==> Lookup(t, k) != Nil
  {
    if k in ArrayKeys(t.arr, |t.arr|) {
      var i: int :| 0 <= i < |t.arr| && t.arr[i] != Nil && k == IntKey(i + 1);
      assert ArrayIndex(k) == i + 1;
    }
    if k in NodeKeys(t.node, 0) {
      var i: int :| 0 <= i < |t.node| && t.node[i].val != Nil && t.node[i].key == k;
      assert Live(t.node, i);
      LookupAt(t, i);
    }
    if Lookup(t, k) != Nil {
      if InArray(t.arr, k) {
        assert k == IntKey(ArrayIndex(k) - 1 + 1);
      } else {
        if i :| Holds(t.node, i, k) {
          assert Live(t.node, i);
          LookupAt(t, i);
          assert t.node[i].key in NodeKeys(t.node, 0);
        } else {
          LookupNone(t, k);
        }
      }
    }
  }

  /** Where an entry that is moved goes. */
  lemma MovedRoom(h: Hasher, t: T, y: Layout, cur: T, nasize: nat, k: Key)
    requires Brent(h, t, y) && |t.arr| <= MAXASIZE && Lookup(t, k) != Nil
    requires Unique(cur.node) && |cur.arr| == nasize && |HashKeys(t, nasize)| <= |cur.node|
    requires forall i :: Live(cur.node, i) ==> cur.node[i].key in HashKeys(t, nasize)
    ensures InArray(cur.arr, k) ||
      (k in HashKeys(t, nasize) && (HasFree(cur.node) || exists i :: Holds(cur.node, i, k)))
  {
    FreeValues(t, y);
    KeysLookup(t, k);
    if !InArray(cur.arr, k) {
      assert k in HashKeys(t, nasize);
      if forall i :: !Holds(cur.node, i, k) { RoomLeft(cur.node, HashKeys(t, nasize), k); }
    }
  }

  lemma FreeValues(t: T, y: Layout)
    requires Ordered(t.node, y)
    ensures forall i :: 0 <= i < |t.node| && !Live(t.node, i) ==> t.node[i].val == Nil
  {
    forall i | 0 <= i < |t.node| && !Live(t.node, i) ensures t.node[i].val == Nil { assert LinkOK(t.node, y, i); }
  }

  /** One slot of the part the array loses. */
  lemma MovedSlot(t: T, cur: T, cur2: T, nasize: nat, a: int)
    requires Partly(t, cur, nasize, a, |t.node|) && nasize <= a < |t.arr| <= MAXASIZE
    requires forall k :: Lookup(cur2, k) == if k == IntKey(a + 1) then t.arr[a] else Lookup(cur, k)
    requires forall i :: Live(cur2.node, i) ==> cur2.node[i].key in HashKeys(t, nasize)
    ensures Partly(t, cur2, nasize, a + 1, |t.node|)
  {
    forall k
      ensures Lookup(cur2, k) == if Moved(t, nasize, a + 1, |t.node|, k) then Lookup(t, k) else Nil
    {
      if k == IntKey(a + 1) { assert ArrayIndex(k) == a + 1; }
      if InArray(t.arr, k) && ArrayIndex(k) == a + 1 { assert k == IntKey(a + 1); }
    }
  }

  /** One node of the old hash part. */
  lemma MovedNode(t: T, cur: T, cur2: T, nasize: nat, b: int)
    requires Partly(t, cur, nasize, |t.arr|, b + 1) && 0 <= b < |t.node| && Unique(t.node) && Apart(t.arr, t.node)
    requires forall k :: Lookup(cur2, k) == if k == t.node[b].key &&
      Live(t.node, b) then t.node[b].val else Lookup(cur, k)
    requires forall i :: Live(cur2.node, i) ==> cur2.node[i].key in HashKeys(t, nasize)
    ensures Partly(t, cur2, nasize, |t.arr|, b)
  {
    forall k
      ensures Lookup(cur2, k) == if Moved(t, nasize, |t.arr|, b, k) then Lookup(t, k) else Nil
    {
      if Holds(t.node, b, k) && k != NilKey {
        assert Live(t.node, b);
        LookupAt(t, b);
      } else if k != NilKey && !InArray(t.arr, k) {
        if i :| b <= i < |t.node| && Holds(t.node, i, k) {
          assert b + 1 <= i;
        }
      }
    }
  }

  /** Nothing to move: the value is nil. */
  lemma SkipSlot(t: T, cur: T, nasize: nat, a: int)
    requires Partly(t, cur, nasize, a, |t.node|) && nasize <= a < |t.arr| <= MAXASIZE && t.arr[a] == Nil
    ensures Partly(t, cur, nasize, a + 1, |t.node|)
  {
    forall k ensures Lookup(cur, k) == if k == IntKey(a + 1) then t.arr[a] else Lookup(cur, k) {
      if k == IntKey(a + 1) { assert ArrayIndex(k) == a + 1 && InArray(t.arr, k); }
    }
    MovedSlot(t, cur, cur, nasize, a);
  }

  lemma SkipNode(t: T, cur: T, nasize: nat, b: int)
    requires Partly(t, cur, nasize, |t.arr|, b + 1) && 0 <= b < |t.node| && Unique(t.node) && Apart(t.arr, t.node)
    requires t.node[b].val == Nil
    ensures Partly(t, cur, nasize, |t.arr|, b)
  {
    forall k
      ensures Lookup(cur, k) == if k == t.node[b].key && Live(t.node, b) then t.node[b].val else Lookup(cur, k)
    {
      if k == t.node[b].key && Live(t.node, b) { LookupAt(t, b); }
    }
    MovedNode(t, cur, cur, nasize, b);
  }

  lemma AllMoved(t: T, cur: T, nasize: nat)
    requires Partly(t, cur, nasize, |t.arr|, 0)
    ensures SameMap(t, cur)
  {
    forall k ensures Lookup(cur, k) == Lookup(t, k) {
      if !Moved(t, nasize, |t.arr|, 0, k) && k != NilKey && !InArray(t.arr, k) { LookupNone(t, k); }
    }
  }
}
