/** The three ways newkey places a key, and that each keeps the invariant and every other key's value. */
module TableInsert {
  import opened TableModel

  /** The key is not in the hash part and does not belong to the array part. */
  ghost predicate Missing(t: T, k: Key) {
    k != NilKey && !InArray(t.arr, k) && forall i :: !Holds(t.node, i, k)
  }

  ghost predicate SameMap(t: T, t2: T) {
    forall k :: Lookup(t2, k) == Lookup(t, k)
  }

  /** The table with the key in the hash part, without a value yet, and otherwise unchanged. */
  ghost predicate Entered(h: Hasher, t: T, y: Layout, t2: T, y2: Layout, i: int, k: Key) {
    && Brent(h, t2, y2) && t2 == t.(node := t2.node) && |t2.node| == |t.node|
    && Holds(t2.node, i, k) && t2.node[i].val == Nil
    && SameMap(t, t2)
    && forall j :: Live(t2.node, j) ==> t2.node[j].key == k || exists q :: Holds(t.node, q, t2.node[j].key)
  }

  // ----- the main position has no value: the key there, live or not, is replaced

  function Overwrite(node: seq<Node>, m: nat, k: Key): seq<Node>
    requires m < |node|
  {
    node[m := node[m].(key := k)]
  }

  ghost function OverwriteLayout(node: seq<Node>, y: Layout, m: nat): Layout
    requires m < |node| && Sized(node, y)
  {
    if Live(node, m) then y else Layout(y.head[m := y.heads], y.depth[m := 0.0], y.heads + 1)
  }

  lemma OverwriteOrdered(node: seq<Node>, y: Layout, m: nat, k: Key)
    requires Ordered(node, y) && m < |node| && k != NilKey
    ensures Ordered(Overwrite(node, m, k), OverwriteLayout(node, y, m))
  {
    var n2, y2 := Overwrite(node, m, k), OverwriteLayout(node, y, m);
    assert LinkOK(node, y, m);
    forall i | 0 <= i < |n2| ensures LinkOK(n2, y2, i) {
      assert LinkOK(node, y, i);
    }
    forall i, j | 0 <= i < |n2| && 0 <= j < |n2| ensures OrderOK(n2, y2, i, j) {
      assert OrderOK(node, y, i, j) && LinkOK(node, y, i) && LinkOK(node, y, j);
    }
  }

  lemma OverwriteHomes(h: Hasher, node: seq<Node>, y: Layout, m: nat, k: Key)
    requires Ordered(node, y) && Homes(h, node, y) && m < |node| && m == MainPos(h, k, |node|) && k != NilKey
    ensures Homes(h, Overwrite(node, m, k), OverwriteLayout(node, y, m))
  {
    var n2, y2 := Overwrite(node, m, k), OverwriteLayout(node, y, m);
    assert HomeOK(h, node, y, m);
    forall i | 0 <= i < |n2| ensures HomeOK(h, n2, y2, i) {
      assert HomeOK(h, node, y, i) && LinkOK(node, y, i);
    }
  }

  lemma OverwriteLookup(t: T, m: nat, k: Key, q: Key)
    requires Unique(t.node) && Missing(t, k) && m < |t.node| && t.node[m].val == Nil && Apart(t.arr, t.node)
    ensures Lookup(t.(node := Overwrite(t.node, m, k)), q) == Lookup(t, q)
  {
    var t2 := t.(node := Overwrite(t.node, m, k));
    assert Unique(t2.node) by { OverwriteUnique(t.node, m, k); }
    if q != NilKey && !InArray(t.arr, q) {
      if q == k {
        assert Holds(t2.node, m, q) && Live(t2.node, m);
        LookupAt(t2, m);
        LookupNone(t, q);
      } else if i :| Holds(t.node, i, q) {
        assert Live(t.node, i);
        LookupAt(t, i);
        if i == m {
          forall j ensures !Holds(t2.node, j, q) { if Holds(t2.node, j, q) { assert Live(t.node, j); } }
          LookupNone(t2, q);
        } else {
          assert Holds(t2.node, i, q) && Live(t2.node, i);
          LookupAt(t2, i);
        }
      } else {
        forall j ensures !Holds(t2.node, j, q) { if Holds(t2.node, j, q) { assert Holds(t.node, j, q); } }
        LookupNone(t2, q);
        LookupNone(t, q);
      }
    }
  }

  lemma OverwriteUnique(node: seq<Node>, m: nat, k: Key)
    requires Unique(node) && m < |node| && (forall i :: !Holds(node, i, k))
    ensures Unique(Overwrite(node, m, k))
  {
    var n2 := Overwrite(node, m, k);
    forall i, j | Live(n2, i) && Live(n2, j) && n2[i].key == n2[j].key ensures i == j {
      if i == m || j == m {
        assert !Holds(node, i, k) && !Holds(node, j, k);
      } else {
        assert Live(node, i) && Live(node, j);
      }
    }
  }

  lemma OverwriteKeeps(h: Hasher, t: T, y: Layout, m: nat, k: Key)
    requires Brent(h, t, y) && Missing(t, k) && !t.dummy
    requires m == MainPos(h, k, |t.node|) && t.node[m].val == Nil
    ensures Entered(h, t, y, t.(node := Overwrite(t.node, m, k)), OverwriteLayout(t.node, y, m), m, k)
  {
    var t2, y2 := t.(node := Overwrite(t.node, m, k)), OverwriteLayout(t.node, y, m);
    hide Ordered, Homes, Lookup;
    OverwriteOrdered(t.node, y, m, k);
    OverwriteHomes(h, t.node, y, m, k);
    OverwriteUnique(t.node, m, k);
    forall i | Live(t.node, i) ensures Live(t2.node, i) {}
    assert Apart(t2.arr, t2.node) by {
      forall i | Live(t2.node, i) ensures !InArray(t2.arr, t2.node[i].key) {
        if i != m { assert Live(t.node, i); }
      }
    }
    forall q ensures Lookup(t2, q) == Lookup(t, q) { OverwriteLookup(t, m, k, q); }
    forall j | Live(t2.node, j) ensures t2.node[j].key == k || exists q :: Holds(t.node, q, t2.node[j].key) {
      if j != m { assert Holds(t.node, j, t2.node[j].key); }
    }
  }

  // ----- the colliding node is in its main position: the key goes to a free node after it

  function Insert(node: seq<Node>, m: nat, n: nat, k: Key): seq<Node>
    requires m < |node| && n < |node|
  {
    node[n := Node(k, node[n].val, node[m].next)][m := node[m].(next := n)]
  }

  ghost function Between(node: seq<Node>, y: Layout, m: nat): real
    requires m < |node| && Sized(node, y)
  {
    if 0 <= node[m].next < |node| then (y.depth[m] + y.depth[node[m].next]) / 2.0 else y.depth[m] + 1.0
  }

  ghost function InsertLayout(node: seq<Node>, y: Layout, m: nat, n: nat): Layout
    requires m < |node| && n < |node| && Sized(node, y)
  {
    Layout(y.head[n := y.head[m]], y.depth[n := Between(node, y, m)], y.heads)
  }

  lemma InsertLinks(node: seq<Node>, y: Layout, m: nat, n: nat, k: Key, i: int)
    requires Ordered(node, y) && Live(node, m) && n < |node| && !Live(node, n) && k != NilKey && 0 <= i < |node|
    ensures LinkOK(Insert(node, m, n, k), InsertLayout(node, y, m, n), i)
  {
    assert LinkOK(node, y, i) && LinkOK(node, y, m) && LinkOK(node, y, n);
  }

  lemma InsertOrder(node: seq<Node>, y: Layout, m: nat, n: nat, k: Key, i: int, j: int)
    requires Ordered(node, y) && Live(node, m) && n < |node| && !Live(node, n) && k != NilKey
    requires 0 <= i < |node| && 0 <= j < |node|
    ensures OrderOK(Insert(node, m, n, k), InsertLayout(node, y, m, n), i, j)
  {
    assert LinkOK(node, y, i) && LinkOK(node, y, j) && LinkOK(node, y, m) && LinkOK(node, y, n);
    assert OrderOK(node, y, i, j) && OrderOK(node, y, m, j) && OrderOK(node, y, i, m);
    assert OrderOK(node, y, m, i) && OrderOK(node, y, j, m);
  }

  lemma InsertOrdered(node: seq<Node>, y: Layout, m: nat, n: nat, k: Key)
    requires Ordered(node, y) && Live(node, m) && n < |node| && !Live(node, n) && k != NilKey
    ensures Ordered(Insert(node, m, n, k), InsertLayout(node, y, m, n))
  {
    forall i | 0 <= i < |node| ensures LinkOK(Insert(node, m, n, k), InsertLayout(node, y, m, n), i) {
      InsertLinks(node, y, m, n, k, i);
    }
    forall i, j | 0 <= i < |node| && 0 <= j < |node|
      ensures OrderOK(Insert(node, m, n, k), InsertLayout(node, y, m, n), i, j)
    {
      InsertOrder(node, y, m, n, k, i, j);
    }
  }

  lemma InsertHomes(h: Hasher, node: seq<Node>, y: Layout, m: nat, n: nat, k: Key)
    requires Ordered(node, y) && Homes(h, node, y) && Live(node, m) && n < |node| && !Live(node, n) && k != NilKey
    requires m == MainPos(h, k, |node|) == MainPos(h, node[m].key, |node|)
    ensures Homes(h, Insert(node, m, n, k), InsertLayout(node, y, m, n))
  {
    var n2, y2 := Insert(node, m, n, k), InsertLayout(node, y, m, n);
    assert LinkOK(node, y, m);
    forall i | 0 <= i < |n2| ensures HomeOK(h, n2, y2, i) {
      assert HomeOK(h, node, y, i);
    }
  }

  /** A free node has taken a key without a value; keys and values elsewhere are as before. */
  ghost predicate Added(node: seq<Node>, n2: seq<Node>, n: nat, k: Key) {
    && |n2| == |node| && n < |node| && !Live(node, n) && n2[n].key == k && n2[n].val == Nil
    && forall i :: 0 <= i < |node| && i != n ==> n2[i].key == node[i].key && n2[i].val == node[i].val
  }

  lemma AddedUnique(node: seq<Node>, n2: seq<Node>, n: nat, k: Key)
    requires Unique(node) && Added(node, n2, n, k) && forall i :: !Holds(node, i, k)
    ensures Unique(n2)
  {
    forall i, j | Live(n2, i) && Live(n2, j) && n2[i].key == n2[j].key ensures i == j {
      if i == n || j == n {
        assert !Holds(node, i, k) && !Holds(node, j, k);
      } else {
        assert Live(node, i) && Live(node, j);
      }
    }
  }

  lemma AddedLookup(t: T, n2: seq<Node>, n: nat, k: Key, q: Key)
    requires Unique(t.node) && Added(t.node, n2, n, k) && Missing(t, k)
    ensures Lookup(t.(node := n2), q) == Lookup(t, q)
  {
    var t2 := t.(node := n2);
    AddedUnique(t.node, n2, n, k);
    if q != NilKey && !InArray(t.arr, q) {
      if q == k {
        assert Holds(n2, n, q) && Live(n2, n);
        LookupAt(t2, n);
        LookupNone(t, q);
      } else if i :| Holds(t.node, i, q) {
        assert Live(t.node, i) && i != n;
        LookupAt(t, i);
        assert Holds(n2, i, q) && Live(n2, i);
        LookupAt(t2, i);
      } else {
        forall j ensures !Holds(n2, j, q) { if Holds(n2, j, q) { assert Holds(t.node, j, q); } }
        LookupNone(t2, q);
        LookupNone(t, q);
      }
    }
  }

  lemma AddedRest(t: T, n2: seq<Node>, n: nat, k: Key)
    requires Unique(t.node) && Added(t.node, n2, n, k) && Missing(t, k) && Apart(t.arr, t.node) &&
      Packed(t.node, t.lastfree)
    ensures Unique(n2) && Apart(t.arr, n2) && Packed(n2, t.lastfree) && SameMap(t, t.(node := n2))
    ensures forall j :: Live(n2, j) ==> n2[j].key == k || exists q :: Holds(t.node, q, n2[j].key)
  {
    AddedUnique(t.node, n2, n, k);
    forall i | Live(t.node, i) ensures Live(n2, i) {}
    forall i | Live(n2, i) ensures !InArray(t.arr, n2[i].key) {
      if i != n { assert Live(t.node, i); }
    }
    forall q ensures Lookup(t.(node := n2), q) == Lookup(t, q) { AddedLookup(t, n2, n, k, q); }
    forall j | Live(n2, j) ensures n2[j].key == k || exists q :: Holds(t.node, q, n2[j].key) {
      if j != n { assert Holds(t.node, j, n2[j].key); }
    }
  }

  lemma InsertKeeps(h: Hasher, t: T, y: Layout, m: nat, n: nat, k: Key)
    requires Brent(h, t, y) && Missing(t, k) && !t.dummy && n < |t.node| && !Live(t.node, n)
    requires m == MainPos(h, k, |t.node|) && Live(t.node, m) && MainPos(h, t.node[m].key, |t.node|) == m
    ensures Entered(h, t, y, t.(node := Insert(t.node, m, n, k)), InsertLayout(t.node, y, m, n), n, k)
  {
    hide Homes, Lookup;
    assert LinkOK(t.node, y, n);
    hide Ordered;
    InsertOrdered(t.node, y, m, n, k);
    InsertHomes(h, t.node, y, m, n, k);
    AddedRest(t, Insert(t.node, m, n, k), n, k);
  }

  // ----- the colliding node is out of its main position: it moves to the free node

  /** prev is the node before the colliding one. */
  function Move(node: seq<Node>, m: nat, n: nat, prev: nat, k: Key): seq<Node>
    requires m < |node| && n < |node| && prev < |node|
  {
    var a := node[prev := node[prev].(next := n)];
    a[n := a[m]][m := Node(k, Nil, -1)]
  }

  ghost function MoveLayout(node: seq<Node>, y: Layout, m: nat, n: nat): Layout
    requires m < |node| && n < |node| && Sized(node, y)
  {
    Layout(y.head[n := y.head[m]][m := y.heads], y.depth[n := y.depth[m]][m := 0.0], y.heads + 1)
  }

  ghost predicate Moving(node: seq<Node>, m: nat, n: nat, prev: nat, k: Key) {
    && Live(node, m) && n < |node| && !Live(node, n) && Live(node, prev) && node[prev].next == m && k != NilKey
  }

  lemma MoveLinks(node: seq<Node>, y: Layout, m: nat, n: nat, prev: nat, k: Key, i: int)
    requires Ordered(node, y) && Moving(node, m, n, prev, k) && 0 <= i < |node|
    ensures LinkOK(Move(node, m, n, prev, k), MoveLayout(node, y, m, n), i)
  {
    assert LinkOK(node, y, i) && LinkOK(node, y, m) && LinkOK(node, y, n) && LinkOK(node, y, prev);
    if Live(node, i) && node[i].next == m { OnePredecessor(node, y, i, prev); }
  }

  lemma MoveOrder(node: seq<Node>, y: Layout, m: nat, n: nat, prev: nat, k: Key, i: int, j: int)
    requires Ordered(node, y) && Moving(node, m, n, prev, k) && 0 <= i < |node| && 0 <= j < |node|
    ensures OrderOK(Move(node, m, n, prev, k), MoveLayout(node, y, m, n), i, j)
  {
    assert LinkOK(node, y, i) && LinkOK(node, y, j) && LinkOK(node, y, m) && LinkOK(node, y, n) &&
      LinkOK(node, y, prev);
    var i0, j0 := if i == n then m else i, if j == n then m else j;
    assert OrderOK(node, y, i0, j0);
    if Live(node, i0) && node[i0].next == m { OnePredecessor(node, y, i0, prev); }
  }

  lemma MoveOrdered(node: seq<Node>, y: Layout, m: nat, n: nat, prev: nat, k: Key)
    requires Ordered(node, y) && Moving(node, m, n, prev, k)
    ensures Ordered(Move(node, m, n, prev, k), MoveLayout(node, y, m, n))
  {
    forall i | 0 <= i < |node| ensures LinkOK(Move(node, m, n, prev, k), MoveLayout(node, y, m, n), i) {
      MoveLinks(node, y, m, n, prev, k, i);
    }
    forall i, j | 0 <= i < |node| && 0 <= j < |node|
      ensures OrderOK(Move(node, m, n, prev, k), MoveLayout(node, y, m, n), i, j)
    {
      MoveOrder(node, y, m, n, prev, k, i, j);
    }
  }

  lemma MoveHome(h: Hasher, node: seq<Node>, y: Layout, m: nat, n: nat, prev: nat, k: Key, i: int)
    requires Ordered(node, y) && Homes(h, node, y) && Moving(node, m, n, prev, k) && 0 <= i < |node|
    requires m == MainPos(h, k, |node|) && MainPos(h, node[m].key, |node|) != m
    ensures HomeOK(h, Move(node, m, n, prev, k), MoveLayout(node, y, m, n), i)
  {
    assert HomeOK(h, node, y, i) && HomeOK(h, node, y, m);
    assert LinkOK(node, y, m);
    if Live(node, i) { assert LinkOK(node, y, i); }
  }

  lemma MoveHomes(h: Hasher, node: seq<Node>, y: Layout, m: nat, n: nat, prev: nat, k: Key)
    requires Ordered(node, y) && Homes(h, node, y) && Moving(node, m, n, prev, k)
    requires m == MainPos(h, k, |node|) && MainPos(h, node[m].key, |node|) != m
    ensures Homes(h, Move(node, m, n, prev, k), MoveLayout(node, y, m, n))
  {
    forall i | 0 <= i < |node| ensures HomeOK(h, Move(node, m, n, prev, k), MoveLayout(node, y, m, n), i) {
      MoveHome(h, node, y, m, n, prev, k, i);
    }
  }

  /** The colliding node's key and value are now at n, and the new key is in its place. */
  ghost predicate Displaced(node: seq<Node>, n2: seq<Node>, m: nat, n: nat, k: Key) {
    && |n2| == |node| && n < |node| && m < |node| && !Live(node, n) && Live(node, m)
    && n2[n].key == node[m].key && n2[n].val == node[m].val && n2[m].key == k && n2[m].val == Nil
    && forall i :: 0 <= i < |node| && i != n && i != m ==> n2[i].key == node[i].key && n2[i].val == node[i].val
  }

  lemma DisplacedUnique(node: seq<Node>, n2: seq<Node>, m: nat, n: nat, k: Key)
    requires Unique(node) && Displaced(node, n2, m, n, k) && forall i :: !Holds(node, i, k)
    ensures Unique(n2)
  {
    forall i, j | Live(n2, i) && Live(n2, j) && n2[i].key == n2[j].key ensures i == j {
      var i0, j0 := if i == n then m else i, if j == n then m else j;
      assert !Holds(node, i0, k) && !Holds(node, j0, k);
      if i != m && j != m { assert Live(node, i0) && Live(node, j0); }
    }
  }

  lemma DisplacedLookup(t: T, n2: seq<Node>, m: nat, n: nat, k: Key, q: Key)
    requires Unique(t.node) && Displaced(t.node, n2, m, n, k) && Missing(t, k)
    ensures Lookup(t.(node := n2), q) == Lookup(t, q)
  {
    var t2 := t.(node := n2);
    DisplacedUnique(t.node, n2, m, n, k);
    if q != NilKey && !InArray(t.arr, q) {
      if q == k {
        assert Holds(n2, m, q) && Live(n2, m);
        LookupAt(t2, m);
        LookupNone(t, q);
      } else if i :| Holds(t.node, i, q) {
        assert Live(t.node, i) && i != n;
        LookupAt(t, i);
        var j := if i == m then n else i;
        assert Holds(n2, j, q) && Live(n2, j);
        LookupAt(t2, j);
      } else {
        forall j ensures !Holds(n2, j, q) {
          if Holds(n2, j, q) { assert Holds(t.node, if j == n then m else j, q); }
        }
        LookupNone(t2, q);
        LookupNone(t, q);
      }
    }
  }

  lemma DisplacedRest(t: T, n2: seq<Node>, m: nat, n: nat, k: Key)
    requires Unique(t.node) && Displaced(t.node, n2, m, n, k) && Missing(t, k)
    requires Apart(t.arr, t.node) && Packed(t.node, t.lastfree)
    ensures Unique(n2) && Apart(t.arr, n2) && Packed(n2, t.lastfree) && SameMap(t, t.(node := n2))
    ensures forall j :: Live(n2, j) ==> n2[j].key == k || exists q :: Holds(t.node, q, n2[j].key)
  {
    DisplacedUnique(t.node, n2, m, n, k);
    forall i | Live(t.node, i) ensures Live(n2, i) {}
    forall i | Live(n2, i) ensures !InArray(t.arr, n2[i].key) {
      if i != m { assert Live(t.node, if i == n then m else i); }
    }
    forall q ensures Lookup(t.(node := n2), q) == Lookup(t, q) { DisplacedLookup(t, n2, m, n, k, q); }
    forall j | Live(n2, j) ensures n2[j].key == k || exists q :: Holds(t.node, q, n2[j].key) {
      if j != m { assert Holds(t.node, if j == n then m else j, n2[j].key); }
    }
  }

  lemma MoveKeeps(h: Hasher, t: T, y: Layout, m: nat, n: nat, prev: nat, k: Key)
    requires Brent(h, t, y) && Missing(t, k) && !t.dummy && Moving(t.node, m, n, prev, k)
    requires m == MainPos(h, k, |t.node|) && MainPos(h, t.node[m].key, |t.node|) != m
    ensures Entered(h, t, y, t.(node := Move(t.node, m, n, prev, k)), MoveLayout(t.node, y, m, n), m, k)
  {
    assert LinkOK(t.node, y, prev) && prev != m;
    hide Homes, Ordered, Lookup;
    MoveOrdered(t.node, y, m, n, prev, k);
    MoveHomes(h, t.node, y, m, n, prev, k);
    assert Displaced(t.node, Move(t.node, m, n, prev, k), m, n, k);
    DisplacedRest(t, Move(t.node, m, n, prev, k), m, n, k);
  }
}
