/** Tables: an array part, a chained scatter table with Brent's variation, and the finite map they represent. */
module TableModel {

  datatype Value = Nil | Val(v: int)

  /** Numbers are compared as reals; strings, booleans and objects by identity. */
  datatype Key = NilKey | Num(r: real) | Str(s: nat) | Boolean(b: bool) | Ref(p: nat)

  /** A node of the hash part; next is the index of another node, or -1. */
  datatype Node = Node(key: Key, val: Value, next: int)

  /** The hash values of numbers, strings and pointers, whatever they are. */
  datatype Hasher = Hasher(num: real -> nat, str: nat -> nat, ref: nat -> nat)

  /** The fields of a table; the node vector of an empty hash part is the shared dummy node. */
  datatype T = T(arr: seq<Value>, node: seq<Node>, dummy: bool, lastfree: int)

  const MAXBITS: nat := 26
  const MAXASIZE: nat := 0x400_0000

  // ----- positions

  /** arrayindex: the integer a key is equal to, or -1. */
  function ArrayIndex(k: Key): int {
    if k.Num? && k.r.Floor as real == k.r && -0x8000_0000 <= k.r.Floor < 0x8000_0000 then k.r.Floor else -1
  }

  /** The key of an array slot. */
  function IntKey(i: int): Key { Num(i as real) }

  predicate InArray(arr: seq<Value>, k: Key) { 1 <= ArrayIndex(k) <= |arr| }

  /** (size - 1) | 1, for a size that is a power of two. */
  function Odd(n: nat): nat
    requires n > 0
    ensures 0 < Odd(n) <= n
  {
    if n == 1 then 1 else n - 1
  }

  /** mainposition. */
  function MainPos(h: Hasher, k: Key, n: nat): (i: nat)
    requires n > 0
    ensures i < n
  {
    match k
    case Num(r) => if r == 0.0 then 0 else h.num(r) % Odd(n)
    case Str(s) => h.str(s) % n
    case Boolean(b) => (if b then 1 else 0) % n
    case Ref(p) => h.ref(p) % Odd(n)
    case NilKey => 0
  }

  // ----- the map

  predicate Holds(node: seq<Node>, i: int, k: Key) { 0 <= i < |node| && node[i].key == k }

  /** The value the table has for a key: nil if there is none. */
  ghost function Lookup(t: T, k: Key): Value {
    if k == NilKey then Nil
    else if InArray(t.arr, k) then t.arr[ArrayIndex(k) - 1]
    else if Find(t.node, k) != -1 then t.node[Find(t.node, k)].val
    else Nil
  }

  /** The node that holds a key, or -1. */
  ghost function Find(node: seq<Node>, k: Key): (i: int)
    ensures i != -1 ==> Holds(node, i, k)
  {
    if exists i :: Holds(node, i, k) then var i :| Holds(node, i, k); i else -1
  }

  // ----- the invariant

  /** Where each node is in its chain: chains have different heads, and depth grows along a chain. */
  datatype Layout = Layout(head: seq<nat>, depth: seq<real>, heads: nat)

  predicate Live(node: seq<Node>, i: int) { 0 <= i < |node| && node[i].key != NilKey }

  ghost predicate Sized(node: seq<Node>, y: Layout) { |y.head| == |y.depth| == |node| }

  /** A free node is on no chain; a live one is followed by a deeper node of its own chain, or ends it. */
  ghost predicate LinkOK(node: seq<Node>, y: Layout, i: int)
    requires Sized(node, y) && 0 <= i < |node|
  {
    if Live(node, i) then
      && y.head[i] < y.heads
      && (node[i].next != -1 ==>
            && Live(node, node[i].next)
            && y.head[node[i].next] == y.head[i]
            && y.depth[i] < y.depth[node[i].next])
    else node[i].next == -1 && node[i].val == Nil
  }

  /** Two nodes of a chain have different depths, and the links skip none. */
  ghost predicate OrderOK(node: seq<Node>, y: Layout, i: int, j: int)
    requires Sized(node, y) && 0 <= i < |node| && 0 <= j < |node|
  {
    Live(node, i) && Live(node, j) && y.head[i] == y.head[j] && i != j ==>
      && y.depth[i] != y.depth[j]
      && (y.depth[i] < y.depth[j] ==> 0 <= node[i].next < |node| && y.depth[node[i].next] <= y.depth[j])
  }

  ghost predicate Ordered(node: seq<Node>, y: Layout) {
    && Sized(node, y)
    && (forall i :: 0 <= i < |node| ==> LinkOK(node, y, i))
    && (forall i, j :: 0 <= i < |node| && 0 <= j < |node| ==> OrderOK(node, y, i, j))
  }

  /** A key is on the chain of its main position, and if it is not there itself, the node that is there
      is in its own main position. */
  ghost predicate HomeOK(h: Hasher, node: seq<Node>, y: Layout, i: int)
    requires Sized(node, y) && 0 <= i < |node|
  {
    Live(node, i) ==>
      var m := MainPos(h, node[i].key, |node|);
      && Live(node, m) && y.head[m] == y.head[i] && y.depth[m] <= y.depth[i]
      && (i != m ==> MainPos(h, node[m].key, |node|) == m)
  }

  ghost predicate Homes(h: Hasher, node: seq<Node>, y: Layout) {
    Sized(node, y) && forall i :: 0 <= i < |node| ==> HomeOK(h, node, y, i)
  }

  ghost predicate Unique(node: seq<Node>) {
    forall i, j :: Live(node, i) && Live(node, j) && node[i].key == node[j].key ==> i == j
  }

  /** No free node at or after lastfree. */
  ghost predicate Packed(node: seq<Node>, lastfree: int) {
    forall i :: lastfree <= i < |node| && 0 <= i ==> Live(node, i)
  }

  /** No key of the hash part belongs to the array part. */
  ghost predicate Apart(arr: seq<Value>, node: seq<Node>) {
    forall i :: Live(node, i) ==> !InArray(arr, node[i].key)
  }

  ghost predicate Brent(h: Hasher, t: T, y: Layout) {
    && |t.node| > 0
    && (t.dummy ==> t.node == [Node(NilKey, Nil, -1)] && t.lastfree <= 0)
    && t.lastfree <= |t.node|
    && Ordered(t.node, y) && Homes(h, t.node, y)
    && Unique(t.node) && Apart(t.arr, t.node)
    && (!t.dummy ==> Packed(t.node, t.lastfree))
  }

  lemma BrentParts(h: Hasher, t: T, y: Layout)
    requires Brent(h, t, y)
    ensures |t.node| > 0 && Sized(t.node, y) && Ordered(t.node, y) && Homes(h, t.node, y)
    ensures Unique(t.node) && Apart(t.arr, t.node) && t.lastfree <= |t.node|
    ensures t.dummy ==> |t.node| == 1 && t.node == [Node(NilKey, Nil, -1)] && t.lastfree <= 0
    ensures !t.dummy ==> Packed(t.node, t.lastfree)
  {
    hide LinkOK, OrderOK, HomeOK;
  }

  // ----- reading

  lemma LookupAt(t: T, i: int)
    requires Unique(t.node) && Live(t.node, i) && !InArray(t.arr, t.node[i].key)
    ensures Lookup(t, t.node[i].key) == t.node[i].val
  {
    assert Holds(t.node, i, t.node[i].key);
  }

  lemma LookupNone(t: T, k: Key)
    requires !InArray(t.arr, k) && forall i :: !Holds(t.node, i, k)
    ensures Lookup(t, k) == Nil
  {
  }

  /** The nodes that come after n in its chain. */
  ghost function Deeper(node: seq<Node>, y: Layout, n: int): set<int>
    requires Sized(node, y) && 0 <= n < |node|
  {
    set j | 0 <= j < |node| && Live(node, j) && y.head[j] == y.head[n] && y.depth[j] > y.depth[n]
  }

  lemma DeeperShrinks(node: seq<Node>, y: Layout, n: int)
    requires Ordered(node, y) && Live(node, n) && node[n].next != -1
    ensures Live(node, node[n].next) && Deeper(node, y, node[n].next) < Deeper(node, y, n)
  {
    assert LinkOK(node, y, n);
    assert node[n].next in Deeper(node, y, n);
  }

  // ----- the invariant in terms of links alone

  /** Following the links k times from n, or -1 once the chain has ended. */
  function Walk(node: seq<Node>, n: int, k: nat): int
    decreases k
  {
    if k == 0 then n else if 0 <= n < |node| then Walk(node, node[n].next, k - 1) else -1
  }

  ghost predicate Ends(node: seq<Node>, n: int) { exists k: nat :: Walk(node, n, k) == -1 }

  ghost predicate Reaches(node: seq<Node>, n: int, j: int) { exists k: nat :: Walk(node, n, k) == j }

  lemma {:induction false} WalkEnds(node: seq<Node>, y: Layout, n: int)
    requires Ordered(node, y) && Live(node, n)
    ensures Ends(node, n)
    decreases Deeper(node, y, n)
  {
    if node[n].next == -1 {
      assert Walk(node, n, 1) == -1;
    } else {
      DeeperShrinks(node, y, n);
      WalkEnds(node, y, node[n].next);
      var k: nat :| Walk(node, node[n].next, k) == -1;
      assert Walk(node, n, k + 1) == -1;
    }
  }

  lemma {:induction false} WalkReaches(node: seq<Node>, y: Layout, n: int, j: int)
    requires Ordered(node, y) && Live(node, n) && Live(node, j) && y.head[n] == y.head[j] && y.depth[n] <= y.depth[j]
    ensures Reaches(node, n, j)
    decreases Deeper(node, y, n)
  {
    assert OrderOK(node, y, n, j) && LinkOK(node, y, n);
    if n == j {
      assert Walk(node, n, 0) == j;
    } else {
      DeeperShrinks(node, y, n);
      WalkReaches(node, y, node[n].next, j);
      var k: nat :| Walk(node, node[n].next, k) == j;
      assert Walk(node, n, k + 1) == j;
    }
  }

  /** What Brent's variation promises, said of the links: chains end, no two nodes have the same successor, every
      key is reached from its main position, and a key that is not there collides with one that is. */
  lemma BrentLinks(h: Hasher, t: T, y: Layout)
    requires Brent(h, t, y)
    ensures forall i :: Live(t.node, i) ==> Ends(t.node, i)
    ensures forall i, j :: Live(t.node, i) && Live(t.node, j) && t.node[i].next == t.node[j].next != -1 ==> i == j
    ensures forall i :: Live(t.node, i) ==> Reaches(t.node, MainPos(h, t.node[i].key, |t.node|), i)
    ensures forall i :: Live(t.node, i) ==>
              var m := MainPos(h, t.node[i].key, |t.node|);
              Live(t.node, m) && (m != i ==> MainPos(h, t.node[m].key, |t.node|) == m)
  {
    forall i | Live(t.node, i) ensures Ends(t.node, i) {
      WalkEnds(t.node, y, i);
    }
    forall i | Live(t.node, i) ensures Reaches(t.node, MainPos(h, t.node[i].key, |t.node|), i) {
      assert HomeOK(h, t.node, y, i);
      WalkReaches(t.node, y, MainPos(h, t.node[i].key, |t.node|), i);
    }
    forall i | Live(t.node, i)
      ensures var m := MainPos(h, t.node[i].key, |t.node|);
              Live(t.node, m) && (m != i ==> MainPos(h, t.node[m].key, |t.node|) == m)
    {
      assert HomeOK(h, t.node, y, i);
    }
    forall i, j | Live(t.node, i) && Live(t.node, j) && t.node[i].next == t.node[j].next != -1 ensures i == j {
      OnePredecessor(t.node, y, i, j);
    }
  }

  lemma OnePredecessor(node: seq<Node>, y: Layout, i: int, j: int)
    requires Ordered(node, y) && Live(node, i) && Live(node, j) && node[i].next == node[j].next != -1
    ensures i == j
  {
    assert LinkOK(node, y, i) && LinkOK(node, y, j) && OrderOK(node, y, i, j) && OrderOK(node, y, j, i);
  }
}
