/** Open upvalues: the sorted list of each thread and the ring that holds the open upvalues of all threads. Pointers
    are positions in the store of cells; position 0 is the head of the ring. */
module Upvalues {
  import opened Wrappers

  datatype Value = Nil | Data(id: nat)

  /** Where the value of an upvalue lives: in a stack slot while it is open, in the upvalue itself once it is closed. */
  datatype Place = Slot(level: nat) | Own

  datatype Cell = Cell(v: Place, value: Value, dead: bool, freed: bool, next: Option<nat>, prev: nat, nxt: nat)

  /** The element at a position, or none past the end. */
  function At(s: seq<nat>, i: nat): Option<nat> { if i < |s| then Some(s[i]) else None }

  predicate Distinct(s: seq<nat>) { forall i, j :: 0 <= i < j < |s| ==> s[i] != s[j] }

  // ----- the ring

  function Succ(i: nat, n: nat): nat { if i + 1 < n then i + 1 else 0 }

  /** Node i of the ring and the one after it point at each other. */
  predicate Joined(cells: seq<Cell>, ring: seq<nat>, i: nat)
    requires i < |ring|
  {
    var a, b := ring[i], ring[Succ(i, |ring|)];
    a < |cells| && b < |cells| && cells[a].nxt == b && cells[b].prev == a
  }

  predicate Ring(cells: seq<Cell>, ring: seq<nat>) {
    && |ring| > 0 && ring[0] == 0 && Distinct(ring)
    && forall i: nat :: i < |ring| ==> Joined(cells, ring, i)
  }

  /** Nothing but the links of the ring differs. */
  predicate OnlyRing(a: seq<Cell>, b: seq<Cell>) {
    |a| == |b| && forall o :: 0 <= o < |a| ==> b[o] == a[o].(prev := b[o].prev, nxt := b[o].nxt)
  }

  /** Double linking a cell right after the head. */
  function LinkRing(cells: seq<Cell>, uv: nat): seq<Cell>
    requires 0 < uv < |cells| && cells[0].nxt < |cells| && cells[0].nxt != uv
  {
    var after := cells[0].nxt;
    var c1 := cells[uv := cells[uv].(prev := 0, nxt := after)];
    var c2 := c1[after := c1[after].(prev := uv)];
    c2[0 := c2[0].(nxt := uv)]
  }

  /** unlinkupval. */
  function UnlinkRing(cells: seq<Cell>, uv: nat): seq<Cell>
    requires uv < |cells| && cells[uv].nxt < |cells| && cells[uv].prev < |cells|
  {
    var c := cells[uv];
    var c1 := cells[c.nxt := cells[c.nxt].(prev := c.prev)];
    c1[c.prev := c1[c.prev].(nxt := c.nxt)]
  }

  lemma LinkKeeps(cells: seq<Cell>, ring: seq<nat>, uv: nat)
    requires Ring(cells, ring) && 0 < uv < |cells| && uv !in ring
    ensures cells[0].nxt < |cells| && cells[0].nxt != uv
    ensures Ring(LinkRing(cells, uv), [0, uv] + ring[1..]) && OnlyRing(cells, LinkRing(cells, uv))
  {
    assert Joined(cells, ring, 0);
    var longer := [0, uv] + ring[1..];
    var c := LinkRing(cells, uv);
    forall i: nat | i < |longer| ensures Joined(c, longer, i) {
      if i >= 1 {
        assert Joined(cells, ring, i - 1);
        if i >= 2 { assert longer[i] == ring[i - 1]; }
      }
    }
  }

  lemma UnlinkKeeps(cells: seq<Cell>, ring: seq<nat>, k: nat)
    requires Ring(cells, ring) && 0 < k < |ring|
    ensures var uv := ring[k];
            && uv < |cells| && cells[uv].nxt < |cells| && cells[uv].prev < |cells|
            && Ring(UnlinkRing(cells, uv), ring[..k] + ring[k + 1..]) && OnlyRing(cells, UnlinkRing(cells, uv))
  {
    var uv := ring[k];
    assert Joined(cells, ring, k) && Joined(cells, ring, k - 1);
    var c := UnlinkRing(cells, uv);
    var shorter := ring[..k] + ring[k + 1..];
    forall i: nat | i < |shorter| ensures Joined(c, shorter, i) {
      UnlinkJoined(cells, ring, k, i);
    }
  }

  lemma UnlinkJoined(cells: seq<Cell>, ring: seq<nat>, k: nat, i: nat)
    requires Ring(cells, ring) && 0 < k < |ring| && i < |ring| - 1
    requires ring[k] < |cells| && cells[ring[k]].nxt < |cells| && cells[ring[k]].prev < |cells|
    ensures Joined(UnlinkRing(cells, ring[k]), ring[..k] + ring[k + 1..], i)
  {
    var shorter := ring[..k] + ring[k + 1..];
    assert Joined(cells, ring, k) && Joined(cells, ring, k - 1);
    var j := if i < k then i else i + 1;
    assert shorter[i] == ring[j] && Joined(cells, ring, j);
    if i == k - 1 {
      assert shorter[Succ(i, |shorter|)] == ring[Succ(k, |ring|)];
    } else {
      assert shorter[Succ(i, |shorter|)] == ring[Succ(j, |ring|)];
    }
  }

  // ----- the list of a thread

  /** Node i of the list is open and points at the next one. */
  predicate Node(cells: seq<Cell>, chain: seq<nat>, i: nat, size: nat)
    requires i < |chain|
  {
    && 0 < chain[i] < |cells| && !cells[chain[i]].freed
    && cells[chain[i]].v.Slot? && cells[chain[i]].v.level < size && cells[chain[i]].next == At(chain, i + 1)
  }

  function Level(cells: seq<Cell>, o: nat): nat { if o < |cells| && cells[o].v.Slot? then cells[o].v.level else 0 }

  /** The list from the given first node: open cells of slots of a stack of this size, from the top down. */
  predicate Chain(cells: seq<Cell>, first: Option<nat>, chain: seq<nat>, size: nat) {
    && first == At(chain, 0)
    && (forall i: nat :: i < |chain| ==> Node(cells, chain, i, size))
    && (forall i, j :: 0 <= i < j < |chain| ==> Level(cells, chain[i]) > Level(cells, chain[j]))
  }

  /** Captures of one slot share one cell: a list has at most one node at a level. */
  lemma OneCell(cells: seq<Cell>, first: Option<nat>, chain: seq<nat>, size: nat, a: nat, b: nat)
    requires Chain(cells, first, chain, size) && a in chain && b in chain
    ensures Level(cells, a) == Level(cells, b) ==> a == b
  {
    var i :| 0 <= i < |chain| && chain[i] == a;
    var j :| 0 <= j < |chain| && chain[j] == b;
    if i < j {
      assert Level(cells, chain[i]) > Level(cells, chain[j]);
    } else if j < i {
      assert Level(cells, chain[j]) > Level(cells, chain[i]);
    }
  }

  lemma ChainDistinct(cells: seq<Cell>, first: Option<nat>, chain: seq<nat>, size: nat)
    requires Chain(cells, first, chain, size)
    ensures Distinct(chain)
  {
    forall i, j | 0 <= i < j < |chain| ensures chain[i] != chain[j] {
      assert Level(cells, chain[i]) > Level(cells, chain[j]);
    }
  }

  /** A list does not notice changes of the ring's links, or of cells that are not in it. */
  lemma ChainKept(a: seq<Cell>, b: seq<Cell>, first: Option<nat>, chain: seq<nat>, size: nat)
    requires Chain(a, first, chain, size) && |a| <= |b|
    requires forall o :: o in chain && o < |a| ==>
      b[o] == a[o].(prev := b[o].prev, nxt := b[o].nxt, dead := b[o].dead, value := b[o].value)
    ensures Chain(b, first, chain, size)
  {
    forall i: nat | i < |chain| ensures Node(b, chain, i, size) { assert Node(a, chain, i, size); }
    forall i, j | 0 <= i < j < |chain| ensures Level(b, chain[i]) > Level(b, chain[j]) {
      assert Node(a, chain, i, size) && Node(a, chain, j, size);
      assert Level(a, chain[i]) > Level(a, chain[j]);
    }
  }

  // ----- all threads together

  /** Every thread's list is well formed. */
  predicate Threads(cells: seq<Cell>, heads: seq<Option<nat>>, stacks: seq<seq<Value>>, chains: seq<seq<nat>>) {
    && |heads| == |stacks| == |chains|
    && forall t :: 0 <= t < |chains| ==> Chain(cells, heads[t], chains[t], |stacks[t]|)
  }

  /** The owner of a cell is the thread whose list it is in. */
  predicate Owns(chains: seq<seq<nat>>, owner: map<nat, nat>) {
    && (forall o :: o in owner ==> owner[o] < |chains| && o in chains[owner[o]])
    && (forall t :: 0 <= t < |chains| ==> OwnedBy(chains[t], owner, t))
  }

  predicate OwnedBy(chain: seq<nat>, owner: map<nat, nat>, t: nat) {
    forall o :: o in chain ==> o in owner && owner[o] == t
  }

  predicate Open(cells: seq<Cell>, o: nat) { 0 < o < |cells| && cells[o].v.Slot? && !cells[o].freed }

  /** The ring, without its head, holds exactly the open cells, and each of them has an owner. */
  ghost predicate RingHolds(cells: seq<Cell>, ring: seq<nat>, owner: map<nat, nat>) {
    && |cells| > 0
    && (forall o :: o in ring && o != 0 ==> o in owner)
    && (forall o :: o in owner ==> o in ring && o != 0)
    && (forall o: nat :: Open(cells, o) <==> o in owner)
  }

  /** A new cell for the level, chained in at position i of the list. */
  function Splice(cells: seq<Cell>, chain: seq<nat>, i: nat, level: nat): seq<Cell>
    requires i <= |chain| && (i > 0 ==> chain[i - 1] < |cells|)
  {
    var c1 := cells + [Cell(Slot(level), Nil, false, false, At(chain, i), 0, 0)];
    if i > 0 then c1[chain[i - 1] := c1[chain[i - 1]].(next := Some(|cells|))] else c1
  }

  /** The position where a new cell of the level belongs. */
  predicate Fits(cells: seq<Cell>, chain: seq<nat>, i: nat, level: nat) {
    && i <= |chain| && (forall j: nat :: j < i ==> Level(cells, chain[j]) > level)
    && (i < |chain| ==> Level(cells, chain[i]) < level)
  }

  lemma SpliceNodes(cells: seq<Cell>, first: Option<nat>, chain: seq<nat>, size: nat, i: nat, level: nat)
    requires Chain(cells, first, chain, size) && Fits(cells, chain, i, level) && level < size && |cells| > 0
    ensures i > 0 ==> chain[i - 1] < |cells|
    ensures forall j: nat :: j <= |chain| ==>
      Node(Splice(cells, chain, i, level), chain[..i] + [|cells|] + chain[i..], j, size)
  {
    ChainDistinct(cells, first, chain, size);
    if i > 0 { assert Node(cells, chain, i - 1, size); }
    var c2 := Splice(cells, chain, i, level);
    var longer := chain[..i] + [|cells|] + chain[i..];
    forall j: nat | j <= |chain| ensures Node(c2, longer, j, size) {
      if j < i { assert Node(cells, chain, j, size); }
      if j > i { assert longer[j] == chain[j - 1] && Node(cells, chain, j - 1, size); }
    }
  }

  lemma SpliceLevel(cells: seq<Cell>, first: Option<nat>, chain: seq<nat>, size: nat, i: nat, level: nat, a: nat)
    requires Chain(cells, first, chain, size) && Fits(cells, chain, i, level) && a <= |chain| &&
      (i > 0 ==> chain[i - 1] < |cells|)
    ensures Level(Splice(cells, chain, i, level), (chain[..i] + [|cells|] + chain[i..])[a]) ==
            if a < i then Level(cells, chain[a]) else if a == i then level else Level(cells, chain[a - 1])
  {
    var longer := chain[..i] + [|cells|] + chain[i..];
    if a < i {
      assert longer[a] == chain[a] && Node(cells, chain, a, size);
    } else if a > i {
      assert longer[a] == chain[a - 1] && Node(cells, chain, a - 1, size);
    }
  }

  /** A list with a new cell for the level in its proper position. */
  lemma SpliceKeeps(cells: seq<Cell>, first: Option<nat>, chain: seq<nat>, size: nat, i: nat, level: nat)
    requires Chain(cells, first, chain, size) && Fits(cells, chain, i, level) && level < size && |cells| > 0
    ensures i > 0 ==> chain[i - 1] < |cells|
    ensures Chain(Splice(cells, chain, i, level), if i > 0 then first else Some(|cells|),
                  chain[..i] + [|cells|] + chain[i..], size)
  {
    SpliceNodes(cells, first, chain, size, i, level);
    var c2 := Splice(cells, chain, i, level);
    var longer := chain[..i] + [|cells|] + chain[i..];
    hide Splice, Node;
    forall a, b | 0 <= a < b < |longer| ensures Level(c2, longer[a]) > Level(c2, longer[b]) {
      InsertDescends(cells, first, chain, size, i, level, a, b);
      SpliceLevel(cells, first, chain, size, i, level, a);
      SpliceLevel(cells, first, chain, size, i, level, b);
    }
  }

  lemma InsertDescends(cells: seq<Cell>, first: Option<nat>, chain: seq<nat>, size: nat, i: nat, level: nat, a: nat,
                       b: nat)
    requires Chain(cells, first, chain, size) && Fits(cells, chain, i, level) && a < b <= |chain|
    ensures (if a < i then Level(cells, chain[a]) else if a == i then level else Level(cells, chain[a - 1])) >
            (if b < i then Level(cells, chain[b]) else if b == i then level else Level(cells, chain[b - 1]))
  {
    if b > i && b - 1 > i { assert Level(cells, chain[i]) > Level(cells, chain[b - 1]); }
  }

  lemma RingKept(a: seq<Cell>, b: seq<Cell>, ring: seq<nat>)
    requires Ring(a, ring) && |a| <= |b| && forall o :: 0 <= o < |a| ==> b[o].prev == a[o].prev && b[o].nxt == a[o].nxt
    ensures Ring(b, ring)
  {
    forall i: nat | i < |ring| ensures Joined(b, ring, i) { assert Joined(a, ring, i); }
  }

  lemma RingInRange(cells: seq<Cell>, ring: seq<nat>, o: nat)
    requires Ring(cells, ring) && o in ring
    ensures o < |cells|
  {
    var i :| 0 <= i < |ring| && ring[i] == o;
    assert Joined(cells, ring, i);
  }

  /** Both lists hold different cells when their owners differ. */
  lemma OtherThread(chains: seq<seq<nat>>, owner: map<nat, nat>, t: nat, s: nat, o: nat)
    requires Owns(chains, owner) && t < |chains| && s < |chains| && s != t && o in chains[t]
    ensures o !in chains[s]
  {
    assert OwnedBy(chains[t], owner, t) && OwnedBy(chains[s], owner, s);
  }

  lemma SpliceOthers(cells: seq<Cell>, heads: seq<Option<nat>>, stacks: seq<seq<Value>>, chains: seq<seq<nat>>,
                     owner: map<nat, nat>,
                     t: nat, i: nat, level: nat, s: nat)
    requires Threads(cells, heads, stacks, chains) && Owns(chains, owner) && t < |chains| && s < |chains| && s != t
    requires i <= |chains[t]| && (i > 0 ==> chains[t][i - 1] < |cells|)
    ensures Chain(Splice(cells, chains[t], i, level), heads[s], chains[s], |stacks[s]|)
  {
    if i > 0 { OtherThread(chains, owner, t, s, chains[t][i - 1]); }
    ChainKept(cells, Splice(cells, chains[t], i, level), heads[s], chains[s], |stacks[s]|);
  }

  lemma SpliceThreads(cells: seq<Cell>, heads: seq<Option<nat>>, stacks: seq<seq<Value>>, chains: seq<seq<nat>>,
                      owner: map<nat, nat>,
                      t: nat, i: nat, level: nat)
    requires Threads(cells, heads, stacks, chains) && Owns(chains, owner) && t < |chains| && |cells| > 0
    requires Fits(cells, chains[t], i, level) && level < |stacks[t]|
    ensures i > 0 ==> chains[t][i - 1] < |cells|
    ensures Threads(Splice(cells, chains[t], i, level), if i > 0 then heads else heads[t := Some(|cells|)], stacks,
                    chains[t := chains[t][..i] + [|cells|] + chains[t][i..]])
  {
    SpliceKeeps(cells, heads[t], chains[t], |stacks[t]|, i, level);
    hide Splice, Chain, Owns, Fits;
    forall s: nat | s < |chains| &&
      s != t ensures Chain(Splice(cells, chains[t], i, level), heads[s], chains[s], |stacks[s]|) {
      SpliceOthers(cells, heads, stacks, chains, owner, t, i, level, s);
    }
  }

  lemma SpliceOwns(chains: seq<seq<nat>>, owner: map<nat, nat>, t: nat, i: nat, uv: nat)
    requires Owns(chains, owner) && t < |chains| && i <= |chains[t]| && uv !in owner
    ensures Owns(chains[t := chains[t][..i] + [uv] + chains[t][i..]], owner[uv := t])
  {
    var longer := chains[t][..i] + [uv] + chains[t][i..];
    var more := chains[t := longer];
    var owner1 := owner[uv := t];
    assert longer[i] == uv;
    assert OwnedBy(chains[t], owner, t);
    forall o | o in chains[t] ensures o in longer {
      var j :| 0 <= j < |chains[t]| && chains[t][j] == o;
      assert longer[if j < i then j else j + 1] == o;
    }
    forall s | 0 <= s < |more| ensures OwnedBy(more[s], owner1, s) { assert OwnedBy(chains[s], owner, s); }
  }

  lemma SpliceHolds(cells: seq<Cell>, ring: seq<nat>, owner: map<nat, nat>, chain: seq<nat>, i: nat, level: nat, t: nat)
    requires RingHolds(cells, ring, owner) && i <= |chain| && (i > 0 ==> chain[i - 1] < |cells|) && ring != [] &&
      ring[0] == 0
    ensures RingHolds(Splice(cells, chain, i, level), [0, |cells|] + ring[1..], owner[|cells| := t])
  {
    var c2 := Splice(cells, chain, i, level);
    var longer := [0, |cells|] + ring[1..];
    assert ring == [0] + ring[1..];
    assert longer == [0, |cells|] + ring[1..];
    forall o | o in ring ensures o in longer { }
    forall o: nat ensures Open(c2, o) <==> o in owner[|cells| := t] {
      assert Open(cells, o) <==> o in owner;
    }
  }

  lemma SpliceRing(cells: seq<Cell>, ring: seq<nat>, chain: seq<nat>, i: nat, level: nat)
    requires Ring(cells, ring) && i <= |chain| && (i > 0 ==> chain[i - 1] < |cells|)
    ensures Ring(Splice(cells, chain, i, level), ring)
  {
    RingKept(cells, Splice(cells, chain, i, level), ring);
  }

  /** Nothing about the lists and their owners depends on the ring's links. */
  lemma OnlyRingKeeps(a: seq<Cell>, b: seq<Cell>, heads: seq<Option<nat>>, stacks: seq<seq<Value>>,
                      chains: seq<seq<nat>>,
                      ring: seq<nat>, owner: map<nat, nat>)
    requires OnlyRing(a, b) && Threads(a, heads, stacks, chains) && RingHolds(a, ring, owner)
    ensures Threads(b, heads, stacks, chains) && RingHolds(b, ring, owner)
  {
    forall t | 0 <= t < |chains| ensures Chain(b, heads[t], chains[t], |stacks[t]|) {
      ChainKept(a, b, heads[t], chains[t], |stacks[t]|);
    }
    forall o: nat ensures Open(b, o) <==> o in owner { assert Open(a, o) <==> o in owner; }
  }

  /** Everything the new cell keeps, before it is linked into the ring. */
  lemma SpliceAll(cells: seq<Cell>, heads: seq<Option<nat>>, stacks: seq<seq<Value>>, chains: seq<seq<nat>>,
                  ring: seq<nat>, owner: map<nat, nat>, t: nat, i: nat, level: nat)
    requires Ring(cells, ring) && Threads(cells, heads, stacks, chains) && Owns(chains, owner) &&
      RingHolds(cells, ring, owner)
    requires t < |chains| && Fits(cells, chains[t], i, level) && level < |stacks[t]|
    ensures |heads| == |chains| && i <= |chains[t]| && |cells| > 0 && |cells| !in ring &&
      (i > 0 ==> chains[t][i - 1] < |cells|)
    ensures var longer := chains[t][..i] + [|cells|] + chains[t][i..];
            var spliced := Splice(cells, chains[t], i, level);
            && Threads(spliced, if i > 0 then heads else heads[t := Some(|cells|)], stacks, chains[t := longer])
            && Owns(chains[t := longer], owner[|cells| := t])
            && RingHolds(spliced, [0, |cells|] + ring[1..], owner[|cells| := t]) && Ring(spliced, ring)
  {
    RingFresh(cells, ring);
    assert |cells| !in owner;
    SpliceThreads(cells, heads, stacks, chains, owner, t, i, level);
    hide Threads, Splice, Node, Chain;
    SpliceOwns(chains, owner, t, i, |cells|);
    SpliceHolds(cells, ring, owner, chains[t], i, level, t);
    SpliceRing(cells, ring, chains[t], i, level);
  }

  // ----- closing the top of a list

  /** Taking the cell out of the ring; a live cell takes over the value of its slot, a dead one is freed. */
  function CloseCell(cells: seq<Cell>, uv: nat, value: Value): seq<Cell>
    requires uv < |cells| && cells[uv].nxt < |cells| && cells[uv].prev < |cells|
  {
    var c := UnlinkRing(cells, uv);
    if c[uv].dead then c[uv := c[uv].(freed := true)] else c[uv := c[uv].(value := value, v := Own)]
  }

  /** Only the cell that is closed changes, apart from the links of the ring. */
  predicate OnlyCell(a: seq<Cell>, b: seq<Cell>, uv: nat) {
    |a| == |b| && forall o :: 0 <= o < |a| && o != uv ==> b[o] == a[o].(prev := b[o].prev, nxt := b[o].nxt)
  }

  /** What closing does to a cell. */
  predicate ClosedCell(a: Cell, b: Cell, value: Value) {
    b.dead == a.dead && if a.dead then b.freed && b.value == a.value else !b.freed && b.v == Own && b.value == value
  }

  lemma CloseRing(cells: seq<Cell>, ring: seq<nat>, k: nat, value: Value)
    requires Ring(cells, ring) && 0 < k < |ring| && ring[k] < |cells| && !cells[ring[k]].freed
    ensures var uv := ring[k];
            && cells[uv].nxt < |cells| && cells[uv].prev < |cells|
            && Ring(CloseCell(cells, uv, value), ring[..k] + ring[k + 1..])
            && OnlyCell(cells, CloseCell(cells, uv, value), uv) &&
               ClosedCell(cells[uv], CloseCell(cells, uv, value)[uv], value)
  {
    UnlinkKeeps(cells, ring, k);
    var c := UnlinkRing(cells, ring[k]);
    assert c[ring[k]] == cells[ring[k]].(prev := c[ring[k]].prev, nxt := c[ring[k]].nxt);
    RingKept(c, CloseCell(cells, ring[k], value), ring[..k] + ring[k + 1..]);
  }

  lemma ChainTail(cells: seq<Cell>, first: Option<nat>, chain: seq<nat>, size: nat)
    requires Chain(cells, first, chain, size) && chain != []
    ensures Node(cells, chain, 0, size) && Chain(cells, cells[chain[0]].next, chain[1..], size) &&
      chain[0] !in chain[1..]
  {
    ChainDistinct(cells, first, chain, size);
    assert Node(cells, chain, 0, size);
    forall i: nat | i < |chain[1..]|
      ensures Node(cells, chain[1..], i, size)
    {
      assert Node(cells, chain, i + 1, size);
    }
    forall i, j | 0 <= i < j < |chain[1..]| ensures Level(cells, chain[1..][i]) > Level(cells, chain[1..][j]) {
      assert Level(cells, chain[i + 1]) > Level(cells, chain[j + 1]);
    }
  }

  lemma ChainBeside(a: seq<Cell>, b: seq<Cell>, uv: nat, first: Option<nat>, chain: seq<nat>, size: nat)
    requires Chain(a, first, chain, size) && OnlyCell(a, b, uv) && uv !in chain
    ensures Chain(b, first, chain, size)
  {
    ChainKept(a, b, first, chain, size);
  }

  lemma CloseThreads(a: seq<Cell>, b: seq<Cell>, heads: seq<Option<nat>>, stacks: seq<seq<Value>>,
                     chains: seq<seq<nat>>,
                     owner: map<nat, nat>, t: nat)
    requires Threads(a, heads, stacks, chains) && Owns(chains, owner) && t < |chains| && chains[t] != []
    requires OnlyCell(a, b, chains[t][0])
    ensures chains[t][0] < |a|
    ensures Threads(b, heads[t := a[chains[t][0]].next], stacks, chains[t := chains[t][1..]])
  {
    var uv := chains[t][0];
    ChainTail(a, heads[t], chains[t], |stacks[t]|);
    ChainBeside(a, b, uv, a[uv].next, chains[t][1..], |stacks[t]|);
    hide Chain, OnlyCell, Owns;
    forall s: nat | s < |chains| && s != t ensures Chain(b, heads[s], chains[s], |stacks[s]|) {
      OtherThread(chains, owner, t, s, uv);
      ChainBeside(a, b, uv, heads[s], chains[s], |stacks[s]|);
    }
  }

  lemma CloseOwns(chains: seq<seq<nat>>, owner: map<nat, nat>, t: nat)
    requires Owns(chains, owner) && t < |chains| && chains[t] != [] && chains[t][0] !in chains[t][1..]
    ensures Owns(chains[t := chains[t][1..]], owner - {chains[t][0]})
  {
    var uv := chains[t][0];
    var fewer := chains[t := chains[t][1..]];
    var owner1 := owner - {uv};
    forall o | o in owner1 ensures owner1[o] < |fewer| && o in fewer[owner1[o]] {
      if owner[o] == t { assert chains[t] == [uv] + chains[t][1..]; }
    }
    forall s | 0 <= s < |fewer| ensures OwnedBy(fewer[s], owner1, s) {
      assert OwnedBy(chains[s], owner, s);
      if s != t { OtherThread(chains, owner, t, s, uv); }
    }
  }

  lemma CloseHolds(a: seq<Cell>, b: seq<Cell>, ring: seq<nat>, k: nat, owner: map<nat, nat>, value: Value)
    requires RingHolds(a, ring, owner) && Distinct(ring) && 0 < k < |ring| && ring[0] == 0 && ring[k] < |a|
    requires OnlyCell(a, b, ring[k]) && ClosedCell(a[ring[k]], b[ring[k]], value)
    ensures RingHolds(b, ring[..k] + ring[k + 1..], owner - {ring[k]})
    ensures forall o :: o in ring[..k] + ring[k + 1..] <==> o in ring && o != ring[k]
  {
    var uv := ring[k];
    var fewer := ring[..k] + ring[k + 1..];
    forall o | o in ring && o != uv ensures o in fewer {
      var i :| 0 <= i < |ring| && ring[i] == o;
      assert fewer[if i < k then i else i - 1] == o;
    }
    forall o: nat ensures Open(b, o) <==> o in owner - {uv} { assert Open(a, o) <==> o in owner; }
  }

  /** Everything one round of luaF_close keeps. */
  lemma CloseTopKeeps(cells: seq<Cell>, heads: seq<Option<nat>>, stacks: seq<seq<Value>>, chains: seq<seq<nat>>,
                      ring: seq<nat>, owner: map<nat, nat>, t: nat) returns (k: nat)
    requires Ring(cells, ring) && Threads(cells, heads, stacks, chains) && Owns(chains, owner) &&
      RingHolds(cells, ring, owner)
    requires t < |chains| && heads[t] != None
    ensures chains[t] != [] && heads[t] == Some(chains[t][0])
    ensures var uv := chains[t][0];
            && uv < |cells| && cells[uv].v.Slot? && cells[uv].v.level < |stacks[t]|
            && cells[uv].nxt < |cells| && cells[uv].prev < |cells| && k < |ring|
            && var value := stacks[t][cells[uv].v.level];
               var after := CloseCell(cells, uv, value);
               var fewer := ring[..k] + ring[k + 1..];
               && Ring(after, fewer)
               && Threads(after, heads[t := cells[uv].next], stacks, chains[t := chains[t][1..]])
               && Owns(chains[t := chains[t][1..]], owner - {uv}) && RingHolds(after, fewer, owner - {uv})
               && OnlyCell(cells, after, uv) && uv < |after| && ClosedCell(cells[uv], after[uv], value)
               && forall o :: o in fewer <==> o in ring && o != uv
  {
    var chain := chains[t];
    ChainTail(cells, heads[t], chain, |stacks[t]|);
    var uv := chain[0];
    var value := stacks[t][cells[uv].v.level];
    k := TopInRing(cells, ring, chains, owner, t);
    CloseRing(cells, ring, k, value);
    var after := CloseCell(cells, uv, value);
    hide CloseCell, Ring, Threads, Owns, RingHolds, OnlyCell, ClosedCell, Chain, Node;
    CloseThreads(cells, after, heads, stacks, chains, owner, t);
    CloseOwns(chains, owner, t);
    CloseHolds(cells, after, ring, k, owner, value);
  }

  // ----- the state

  class State {
    var cells: seq<Cell>
    var stacks: seq<seq<Value>>
    /** openupval of each thread. */
    var heads: seq<Option<nat>>

    ghost var ring: seq<nat>
    ghost var chains: seq<seq<nat>>
    ghost var owner: map<nat, nat>

    ghost predicate Valid()
      reads this
    {
      && Ring(cells, ring)
      && Threads(cells, heads, stacks, chains)
      && Owns(chains, owner)
      && RingHolds(cells, ring, owner)
    }

    constructor (stacks: seq<seq<Value>>)
      ensures Valid() && this.stacks == stacks && ring == [0] && chains == seq(|stacks|, _ => [])
    {
      this.stacks := stacks;
      cells := [Cell(Own, Nil, false, false, None, 0, 0)];
      heads := seq(|stacks|, _ => None);
      ring := [0];
      chains := seq(|stacks|, _ => []);
      owner := map[];
    }

    /** The value an upvalue of thread t stands for. */
    function Get(t: nat, uv: nat): Value
      reads this
      requires t < |stacks| && uv < |cells| && (cells[uv].v.Slot? ==> cells[uv].v.level < |stacks[t]|)
    {
      if cells[uv].v.Slot? then stacks[t][cells[uv].v.level] else cells[uv].value
    }

    /** The search of luaF_findupval: the first node not above the level, and the node before it. */
    method Search(t: nat, level: nat) returns (before: Option<nat>, p: Option<nat>, ghost i: nat)
      requires Threads(cells, heads, stacks, chains) && t < |chains|
      ensures i <= |chains[t]| && p == At(chains[t], i) && before == (if i > 0 then Some(chains[t][i - 1]) else None)
      ensures forall j: nat :: j < i ==> Level(cells, chains[t][j]) > level
      ensures i < |chains[t]| ==> Node(cells, chains[t], i, |stacks[t]|) && Level(cells, chains[t][i]) <= level
    {
      ghost var chain := chains[t];
      before, p, i := None, heads[t], 0;
      if i < |chain| { assert Node(cells, chain, i, |stacks[t]|); }
      while p != None && cells[p.value].v.level > level
        invariant 0 <= i <= |chain| && p == At(chain, i)
        invariant before == (if i > 0 then Some(chain[i - 1]) else None)
        invariant i < |chain| ==> Node(cells, chain, i, |stacks[t]|)
        invariant forall j: nat :: j < i ==> Level(cells, chain[j]) > level
        decreases |chain| - i
      {
        before := p;
        p := cells[p.value].next;
        i := i + 1;
        if i < |chain| { assert Node(cells, chain, i, |stacks[t]|); }
      }
    }

    /** luaF_findupval: the open upvalue of a slot, found or made. A dead one that is found comes back to life. */
    method FindUpval(t: nat, level: nat) returns (uv: nat)
      requires Valid() && t < |chains| && level < |stacks[t]|
      modifies this
      ensures Valid() && stacks == old(stacks) && |chains| == |old(chains)|
      ensures uv in chains[t] && uv < |cells| && cells[uv].v == Slot(level) && !cells[uv].dead
      ensures uv in old(chains[t]) ==> chains == old(chains) && ring == old(ring)
      ensures uv !in old(chains[t]) ==>
        uv == |old(cells)| && ring == [0, uv] + old(ring)[1..] && Inserted(old(chains[t]), chains[t], uv)
      ensures KeepsCells(old(cells), cells, uv)
      ensures forall s :: 0 <= s < |chains| && s != t ==> chains[s] == old(chains[s])
    {
      var before, p, i := Search(t, level);
      if p != None && cells[p.value].v.level == level {
        uv := p.value;
        ghost var was := cells;
        if cells[uv].dead { cells := cells[uv := cells[uv].(dead := false)]; }
        DeadKeeps(was, cells, heads, stacks, chains, ring, owner);
        return;
      }
      uv := MakeUpval(t, level, before, p, i);
    }

    /** The second half of luaF_findupval: a new cell, chained in its proper position and linked into the ring. */
    method MakeUpval(t: nat, level: nat, before: Option<nat>, p: Option<nat>, ghost i: nat) returns (uv: nat)
      requires Valid() && t < |chains| && level < |stacks[t]| && Fits(cells, chains[t], i, level)
      requires p == At(chains[t], i) && before == (if i > 0 then Some(chains[t][i - 1]) else None)
      modifies this
      ensures Valid() && stacks == old(stacks)
      ensures uv == |old(cells)| < |cells| && cells[uv].v == Slot(level) && !cells[uv].dead
      ensures ring == [0, uv] + old(ring)[1..] &&
        chains == old(chains)[t := old(chains[t])[..i] + [uv] + old(chains[t])[i..]]
      ensures KeepsCells(old(cells), cells, uv)
    {
      ghost var was, chain := cells, chains[t];
      uv := |cells|;
      SpliceAll(cells, heads, stacks, chains, ring, owner, t, i, level);
      hide Ring, Threads, Owns, RingHolds, Fits, OnlyRing, Splice, KeepsCells;
      ChainIn(t, level, before, p, i);
      SpliceCells(was, chain, i, level);
      chains := chains[t := chain[..i] + [uv] + chain[i..]];
      owner := owner[uv := t];
      ghost var spliced := cells;
      LinkIn(uv);
      KeepsTwice(was, spliced, cells, uv);
      LinkedCell(spliced, cells, uv);
    }

    /** The new cell and the link to it from its predecessor. */
    method ChainIn(t: nat, level: nat, before: Option<nat>, p: Option<nat>, ghost i: nat)
      requires t < |chains| && |heads| == |chains| && i <= |chains[t]| && (i > 0 ==> chains[t][i - 1] < |cells|)
      requires p == At(chains[t], i) && before == (if i > 0 then Some(chains[t][i - 1]) else None)
      modifies this`cells, this`heads
      ensures cells == Splice(old(cells), chains[t], i, level)
      ensures heads == if i > 0 then old(heads) else old(heads)[t := Some(|old(cells)|)]
    {
      var uv := |cells|;
      cells := cells + [Cell(Slot(level), Nil, false, false, p, 0, 0)];
      if before == None {
        heads := heads[t := Some(uv)];
      } else {
        cells := cells[before.value := cells[before.value].(next := Some(uv))];
      }
    }

    /** The new cell is double linked into the ring. */
    method LinkIn(uv: nat)
      requires Ring(cells, ring) && 0 < uv < |cells| && uv !in ring
      requires Threads(cells, heads, stacks, chains) && RingHolds(cells, [0, uv] + ring[1..], owner)
      modifies this`cells, this`ring
      ensures ring == [0, uv] + old(ring)[1..] && Ring(cells, ring) && OnlyRing(old(cells), cells)
      ensures Threads(cells, heads, stacks, chains) && RingHolds(cells, ring, owner)
    {
      ghost var was := cells;
      LinkKeeps(cells, ring, uv);
      OnlyRingKeeps(cells, LinkRing(cells, uv), heads, stacks, chains, [0, uv] + ring[1..], owner);
      hide Ring, Threads, RingHolds, OnlyRing;
      cells := cells[uv := cells[uv].(prev := 0, nxt := cells[0].nxt)];
      cells := cells[cells[uv].nxt := cells[cells[uv].nxt].(prev := uv)];
      cells := cells[0 := cells[0].(nxt := uv)];
      assert cells == LinkRing(was, uv);
      ring := [0, uv] + ring[1..];
    }

    /** One round of luaF_close: the first cell of the list goes. */
    method CloseTop(t: nat) returns (uv: nat)
      requires Valid() && t < |chains| && heads[t] != None
      modifies this`cells, this`heads, this`ring, this`chains, this`owner
      ensures Valid() && old(chains[t]) != [] && uv == old(chains[t])[0] &&
        chains == old(chains)[t := old(chains[t])[1..]]
      ensures uv < |old(cells)| && old(cells)[uv].v.Slot? && old(cells)[uv].v.level < |stacks[t]|
      ensures OnlyCell(old(cells), cells, uv) &&
        ClosedCell(old(cells)[uv], cells[uv], stacks[t][old(cells)[uv].v.level])
      ensures forall o :: o in ring <==> o in old(ring) && o != uv
    {
      ghost var k := CloseTopKeeps(cells, heads, stacks, chains, ring, owner, t);
      hide Ring, Threads, Owns, RingHolds, OnlyCell, ClosedCell, CloseCell;
      uv := heads[t].value;
      var value := stacks[t][cells[uv].v.level];
      heads := heads[t := cells[uv].next];
      ring := ring[..k] + ring[k + 1..];
      chains := chains[t := chains[t][1..]];
      owner := owner - {uv};
      Discard(uv, value);
    }

    /** The two ends of luaF_close: the cell leaves the ring, and is freed or keeps the value. */
    method Discard(uv: nat, value: Value)
      requires uv < |cells| && cells[uv].nxt < |cells| && cells[uv].prev < |cells|
      modifies this`cells
      ensures cells == CloseCell(old(cells), uv, value)
    {
      var dead := cells[uv].dead;
      cells := cells[cells[uv].nxt := cells[cells[uv].nxt].(prev := cells[uv].prev)];
      cells := cells[cells[uv].prev := cells[cells[uv].prev].(nxt := cells[uv].nxt)];
      if dead {
        cells := cells[uv := cells[uv].(freed := true)];
      } else {
        cells := cells[uv := cells[uv].(value := value, v := Own)];
      }
    }

    /** luaF_close: closes exactly the cells of the thread at or above the level. A live one keeps the last value of its
        slot, a dead one is freed, and they leave the ring. */
    method Close(t: nat, level: nat) returns (ghost k: nat)
      requires Valid() && t < |chains|
      modifies this`cells, this`heads, this`ring, this`chains, this`owner
      ensures Valid() && k <= |old(chains[t])| && chains == old(chains)[t := old(chains[t])[k..]]
      ensures forall i: nat :: i < |old(chains[t])| ==> (Level(old(cells), old(chains[t])[i]) >= level <==> i < k)
      ensures forall i: nat :: i < k ==> ClosedIn(old(cells), cells, old(chains[t])[i], stacks[t])
      ensures KeepsBut(old(cells), cells, old(chains[t])[..k])
      ensures forall o :: o in ring <==> o in old(ring) && o !in old(chains[t])[..k]
    {
      hide Ring, Owns, RingHolds, OnlyCell, ClosedCell, ClosedIn, KeepsBut, Chain, Level;
      ghost var a, was, stack, ring0 := cells, chains[t], stacks[t], ring;
      k := 0;
      CloseStart(a, heads[t], was, stack);
      assert was[0..] == was && chains[t := was] == chains;
      while heads[t] != None && cells[heads[t].value].v.level >= level
        invariant k <= |was| && Valid() && chains == old(chains)[t := was[k..]]
        invariant HeadOpen(cells, heads[t], was, k)
        invariant Distinct(was) && KeepsBut(a, cells, was[..k])
        invariant forall i: nat :: i < k ==> ClosedIn(a, cells, was[i], stack) && Level(a, was[i]) >= level
        invariant forall o :: o in ring <==> o in ring0 && o !in was[..k]
        decreases |was| - k
      {
        ghost var b := cells;
        var uv := CloseTop(t);
        CloseStep(a, b, cells, was, k, stack, level);
        k := k + 1;
        HeadOfRest(cells, heads[t], was, k, |stack|);
      }
      CloseEnd(a, cells, old(heads[t]), was, heads[t], k, |stack|, level);
    }
  }

  /** The first cell of what is left of a list is open, if there is one. */
  predicate HeadOpen(cells: seq<Cell>, first: Option<nat>, chain: seq<nat>, k: nat) {
    first == At(chain, k) && (k < |chain| ==> chain[k] < |cells| && cells[chain[k]].v.Slot?)
  }

  lemma HeadOfRest(cells: seq<Cell>, first: Option<nat>, chain: seq<nat>, k: nat, size: nat)
    requires k <= |chain| && Chain(cells, first, chain[k..], size)
    ensures HeadOpen(cells, first, chain, k)
  {
    if k < |chain| { assert Node(cells, chain[k..], 0, size); }
  }

  lemma CloseStart(cells: seq<Cell>, first: Option<nat>, chain: seq<nat>, stack: seq<Value>)
    requires Chain(cells, first, chain, |stack|)
    ensures HeadOpen(cells, first, chain, 0) && Distinct(chain) && KeepsBut(cells, cells, chain[..0])
  {
    ChainDistinct(cells, first, chain, |stack|);
    assert chain[0..] == chain;
    HeadOfRest(cells, first, chain, 0, |stack|);
  }

  /** One more cell closed. */
  lemma CloseStep(a: seq<Cell>, b: seq<Cell>, c: seq<Cell>, chain: seq<nat>, k: nat, stack: seq<Value>, level: nat)
    requires Distinct(chain) && k < |chain| && chain[k] < |b| && KeepsBut(a, b, chain[..k])
    requires forall i: nat :: i < k ==> ClosedIn(a, b, chain[i], stack) && Level(a, chain[i]) >= level
    requires b[chain[k]].v.Slot? && level <= b[chain[k]].v.level < |stack|
    requires OnlyCell(b, c, chain[k]) && ClosedCell(b[chain[k]], c[chain[k]], stack[b[chain[k]].v.level])
    ensures KeepsBut(a, c, chain[..k + 1])
    ensures forall i: nat :: i < k + 1 ==> ClosedIn(a, c, chain[i], stack) && Level(a, chain[i]) >= level
  {
    assert chain[..k + 1] == chain[..k] + [chain[k]];
    assert chain[k] !in chain[..k];
    forall i: nat | i < k + 1 ensures ClosedIn(a, c, chain[i], stack) && Level(a, chain[i]) >= level {
      if i < k { assert ClosedIn(a, b, chain[i], stack) && chain[i] != chain[k]; }
    }
  }

  /** The loop stops exactly where the levels fall below the given one. */
  lemma CloseEnd(a: seq<Cell>, b: seq<Cell>, first: Option<nat>, chain: seq<nat>, rest: Option<nat>, k: nat, size: nat,
                 level: nat)
    requires Chain(a, first, chain, size) && Distinct(chain) && k <= |chain| && KeepsBut(a, b, chain[..k])
    requires HeadOpen(b, rest, chain, k) && (rest != None ==> b[rest.value].v.level < level)
    requires forall i: nat :: i < k ==> Level(a, chain[i]) >= level
    ensures forall i: nat :: i < |chain| ==> (Level(a, chain[i]) >= level <==> i < k)
  {
    if k < |chain| {
      assert chain[k] !in chain[..k];
      assert Level(a, chain[k]) == Level(b, chain[k]) < level;
      forall i: nat | k < i < |chain|
        ensures Level(a, chain[i]) < level
      {
        assert Level(a, chain[k]) > Level(a, chain[i]);
      }
    }
  }

  lemma LinkedCell(a: seq<Cell>, b: seq<Cell>, o: nat)
    requires OnlyRing(a, b) && o < |a|
    ensures |b| == |a| && b[o].v == a[o].v && b[o].dead == a[o].dead
  {
  }

  lemma RingFresh(cells: seq<Cell>, ring: seq<nat>)
    requires Ring(cells, ring)
    ensures |cells| !in ring && |cells| > 0
  {
    forall o | o in ring ensures o < |cells| { RingInRange(cells, ring, o); }
    assert ring[0] in ring;
  }

  /** The first cell of a list stands in the ring, after its head. */
  lemma TopInRing(cells: seq<Cell>, ring: seq<nat>, chains: seq<seq<nat>>, owner: map<nat, nat>, t: nat)
    returns (k: nat)
    requires Ring(cells, ring) && Owns(chains, owner) && RingHolds(cells, ring, owner) && t < |chains| &&
      chains[t] != []
    ensures 0 < k < |ring| && ring[k] == chains[t][0] && Distinct(ring) && ring[0] == 0
    ensures ring[k] < |cells| && cells[ring[k]].v.Slot? && !cells[ring[k]].freed
  {
    var uv := chains[t][0];
    assert OwnedBy(chains[t], owner, t);
    assert Open(cells, uv);
    k :| 0 <= k < |ring| && ring[k] == uv;
  }

  /** The cell was closed with the value of its slot. */
  predicate ClosedIn(a: seq<Cell>, b: seq<Cell>, o: nat, stack: seq<Value>) {
    && o < |a| && o < |b| && a[o].v.Slot? && a[o].v.level < |stack|
    && ClosedCell(a[o], b[o], stack[a[o].v.level])
  }

  /** All cells but these keep their place, value, life and successor. */
  predicate KeepsBut(a: seq<Cell>, b: seq<Cell>, gone: seq<nat>) {
    |a| == |b| && forall o :: 0 <= o < |a| && o !in gone ==> b[o] == a[o].(prev := b[o].prev, nxt := b[o].nxt)
  }

  /** Coming back to life changes nothing else. */
  lemma DeadKeeps(a: seq<Cell>, b: seq<Cell>, heads: seq<Option<nat>>, stacks: seq<seq<Value>>, chains: seq<seq<nat>>,
                  ring: seq<nat>, owner: map<nat, nat>)
    requires |a| == |b| && forall o :: 0 <= o < |a| ==> b[o] == a[o].(dead := b[o].dead)
    requires Threads(a, heads, stacks, chains) && RingHolds(a, ring, owner) && Ring(a, ring)
    ensures Threads(b, heads, stacks, chains) && RingHolds(b, ring, owner) && Ring(b, ring)
  {
    forall t | 0 <= t < |chains| ensures Chain(b, heads[t], chains[t], |stacks[t]|) {
      ChainKept(a, b, heads[t], chains[t], |stacks[t]|);
    }
    RingKept(a, b, ring);
    forall o: nat ensures Open(b, o) <==> o in owner { assert Open(a, o) <==> o in owner; }
  }

  /** The values of cells stay, and those but one also stay as dead or alive as they were. */
  predicate KeepsCells(a: seq<Cell>, b: seq<Cell>, uv: nat) {
    |a| <= |b| && forall o :: 0 <= o < |a| ==> SameValue(a[o], b[o]) && (o != uv ==> b[o].dead == a[o].dead)
  }

  lemma KeepsTwice(a: seq<Cell>, b: seq<Cell>, c: seq<Cell>, uv: nat)
    requires KeepsCells(a, b, uv) && OnlyRing(b, c)
    ensures KeepsCells(a, c, uv)
  {
  }

  lemma SpliceCells(cells: seq<Cell>, chain: seq<nat>, i: nat, level: nat)
    requires i <= |chain| && (i > 0 ==> chain[i - 1] < |cells|)
    ensures var c2 := Splice(cells, chain, i, level);
            |c2| == |cells| + 1 && c2[|cells|].v == Slot(level) && !c2[|cells|].dead && KeepsCells(cells, c2, |cells|)
  {
  }

  predicate SameValue(a: Cell, b: Cell) { a.v == b.v && a.value == b.value && a.freed == b.freed }

  /** The list with one more node in it. */
  ghost predicate Inserted(chain: seq<nat>, longer: seq<nat>, uv: nat) {
    exists i :: 0 <= i <= |chain| && longer == chain[..i] + [uv] + chain[i..]
  }
}
