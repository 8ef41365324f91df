/** Keys of empty entries. A table node whose value is nil keeps its key; a store to that key finds the node again,
    and the barrier then looks at the value alone. The traversal of a table makes such keys dead, so that no store
    finds them. Here the keys that are not dead are kept beside the heap, and safety is proved with stores that
    find them. */
module GcKeys {
  import opened Wrappers
  import opened GcHeap
  import opened GcMark
  import opened GcSweep
  import opened GcInvariant
  import opened GcClose
  import opened GcSweepKeeps
  import opened GcMutator
  import opened GcMutatorKeeps
  import opened GcRuns
  import opened GcFull

  /** For each table the collectable keys of its nodes whose value is nil, as far as they are not dead. */
  type KeyMap = map<Addr, set<Addr>>

  function KeysOf(keys: KeyMap, a: Addr): set<Addr> { if a in keys then keys[a] else {} }

  /** The collected heap together with the keys of empty entries. */
  datatype Keyed = Keyed(s: State, keys: KeyMap)

  // ----- traversal

  /** removeentry, in the traversal of the first gray object: its keys of empty entries are dead. */
  function ClearedKey(s: State, keys: KeyMap): KeyMap
    requires s.gray != [] && s.gray[0] in s.heap
  {
    var o := s.gray[0];
    if s.heap[o].body.Table? && o in keys then keys[o := {}] else keys
  }

  /** ... in propagateall, */
  function ClearedAll(s: State, keys: KeyMap): KeyMap
    requires Queued(s)
    decreases Whites(s.heap), |s.gray|
  {
    if s.gray == [] then keys
    else
      PropagateQueued(s);
      ClearedAll(PropagateMark(s), ClearedKey(s, keys))
  }

  /** ... and in atomic. */
  function ClearedAtomic(s: State, keys: KeyMap): KeyMap
    requires Queued(s)
  {
    var s1 := RemarkUpvals(s, s.uvhead);
    RemarkQueued(s, s.uvhead);
    var s2 := PropagateAll(s1);
    var s3 := MarkAll(s2, [s.running] + OptRefs(s.mt));
    MarkAllQueued(s2, [s.running] + OptRefs(s.mt));
    var s4 := PropagateAll(s3);
    ClearedAll(s4.(gray := s4.grayagain, grayagain := []), ClearedAll(s3, ClearedAll(s1, keys)))
  }

  predicate BlackTable(h: Heap, a: Addr) { a in h && h[a].body.Table? && h[a].mark.Black? }

  /** The table has been traversed between h and k: nothing else turns a table black. */
  predicate Traversed(h: Heap, k: Heap, a: Addr) { !BlackTable(h, a) && BlackTable(k, a) }

  function Cleared(h: Heap, k: Heap, keys: KeyMap): KeyMap {
    map a | a in keys :: if Traversed(h, k, a) then {} else keys[a]
  }

  ghost predicate BlackKept(h: Heap, k: Heap) { forall a :: BlackTable(h, a) ==> BlackTable(k, a) }

  lemma ClearedTwice(h: Heap, m: Heap, k: Heap, keys: KeyMap)
    requires BlackKept(h, m) && BlackKept(m, k)
    ensures Cleared(m, k, Cleared(h, m, keys)) == Cleared(h, k, keys) && BlackKept(h, k)
  {
  }

  /** Marking turns no table black. */
  lemma MarkedTables(s: State, r: State, keys: KeyMap)
    requires Marked(s, r)
    ensures BlackKept(s.heap, r.heap) && Cleared(s.heap, r.heap, keys) == keys
  {
    hide Settled;
  }

  lemma PropagateBlack(s: State, a: Addr)
    requires s.gray != [] && s.gray[0] in s.heap && s.heap[s.gray[0]].mark.Gray?
    ensures BlackTable(PropagateMark(s).heap, a) <==> BlackTable(s.heap, a) || (a == s.gray[0] && s.heap[a].body.Table?)
  {
    PropagateMarked(s);
    hide PropagateMark, Settled, NoDup, Listed;
  }

  lemma PropagateClears(s: State, keys: KeyMap)
    requires s.gray != [] && s.gray[0] in s.heap && s.heap[s.gray[0]].mark.Gray?
    ensures Cleared(s.heap, PropagateMark(s).heap, keys) == ClearedKey(s, keys) &&
      BlackKept(s.heap, PropagateMark(s).heap)
  {
    forall a
      ensures BlackTable(PropagateMark(s).heap, a) <==>
        BlackTable(s.heap, a) || (a == s.gray[0] && s.heap[a].body.Table?)
    {
      PropagateBlack(s, a);
    }
    assert !BlackTable(s.heap, s.gray[0]);
    hide PropagateMark, BlackTable;
  }

  lemma {:induction false} AllClears(s: State, keys: KeyMap)
    requires MarkPhase(s) && TriColour(s) && Queued(s)
    ensures Cleared(s.heap, PropagateAll(s).heap, keys) == ClearedAll(s, keys) &&
      BlackKept(s.heap, PropagateAll(s).heap)
    decreases Whites(s.heap), |s.gray|
  {
    hide MarkPhase, TriColour, Queued, PropagateMark, BlackKept, ClearedKey, Cleared;
    if s.gray == [] {
      ClearedSelf(s.heap, keys);
    } else {
      FirstGray(s);
      PropagateMarkKeeps(s);
      PropagateQueued(s);
      PropagateClears(s, keys);
      AllClears(PropagateMark(s), ClearedKey(s, keys));
      ClearedTwice(s.heap, PropagateMark(s).heap, PropagateAll(s).heap, keys);
    }
  }

  lemma ClearedSelf(h: Heap, keys: KeyMap)
    ensures Cleared(h, h, keys) == keys && BlackKept(h, h)
  {
  }

  lemma FirstGray(s: State)
    requires MarkPhase(s) && s.gray != []
    ensures s.gray[0] in s.heap && s.heap[s.gray[0]].mark.Gray?
  {
    assert s.gray[0] in s.gray;
  }

  /** The keys that atomic makes dead are those of the tables that turn black in it. */
  lemma AtomicClears(s: State, keys: KeyMap)
    requires MarkPhase(s) && TriColour(s) && Queued(s)
    ensures Cleared(s.heap, AtomicMark(s).heap, keys) == ClearedAtomic(s, keys)
  {
    hide MarkPhase, TriColour, Queued, UpvaluesDone, RemarkUpvals, Edges, MarkedSet, BlackKept, PropagateAll, MarkAll,
         Cleared, ClearedAll, ThreadsDone;
    var l := [s.running] + OptRefs(s.mt);
    var s1 := RemarkUpvals(s, s.uvhead);
    FirstRound(s);
    var k1, s2 := ClearedAll(s1, keys), PropagateAll(s1);
    AllClears(s1, keys);
    MarkedTables(s, s1, keys);
    ClearedTwice(s.heap, s1.heap, s2.heap, keys);
    var s3 := MarkAll(s2, l);
    SecondRound(s2, l);
    var k3, s4 := ClearedAll(s3, k1), PropagateAll(s3);
    AllClears(s3, k1);
    MarkedTables(s2, s3, k1);
    ClearedTwice(s2.heap, s3.heap, s4.heap, k1);
    ClearedTwice(s.heap, s2.heap, s4.heap, keys);
    var s5 := s4.(gray := s4.grayagain, grayagain := []);
    AllClears(s5, k3);
    ClearedTwice(s.heap, s4.heap, PropagateAll(s5).heap, keys);
  }

  lemma FirstRound(s: State)
    requires MarkPhase(s) && TriColour(s) && Queued(s)
    ensures var s1 := RemarkUpvals(s, s.uvhead);
            Marked(s, s1) && MarkPhase(s1) && TriColour(s1) && Queued(s1) && MarkedSet(PropagateAll(s1))
  {
    hide MarkPhase, TriColour, Queued, RemarkUpvals, Marked, MarkedSet, PropagateAll, UpvaluesDone;
    RemarkUpvalsMarks(s, s.uvhead);
    RemarkQueued(s, s.uvhead);
    AtomicFirstHalf(s);
    MarkedMarkPhase(s, RemarkUpvals(s, s.uvhead));
    MarkedTriColour(s, RemarkUpvals(s, s.uvhead));
  }

  lemma SecondRound(s: State, l: seq<Addr>)
    requires MarkedSet(s)
    ensures Queued(s)
    ensures var s1 := MarkAll(s, l);
            && Marked(s, s1) && MarkPhase(s1) && TriColour(s1) && Queued(s1)
            && var s2 := PropagateAll(s1).(gray := PropagateAll(s1).grayagain, grayagain := []);
            MarkPhase(s2) && TriColour(s2) && Queued(s2)
  {
    hide MarkPhase, TriColour, Queued, UpvaluesDone, Edges, Settled, MarkedSet, ThreadsDone, MarkAll, Marked;
    MarkedSetParts(s);
    MarkAllMarks(s, l);
    MarkAllQueued(s, l);
    var s1 := MarkAll(s, l);
    MarkedMarkedSet(s, s1);
    MarkedSetParts(s1);
    PropagateAllKeeps(s1);
    MarkedSetWhole(PropagateAll(s1));
    GrayAgain(PropagateAll(s1));
    MarkedSetParts(PropagateAll(s1).(gray := PropagateAll(s1).grayagain, grayagain := []));
  }

  function ClearedStep(s: State, keys: KeyMap): KeyMap
    requires s.phase == Propagate ==> Queued(s)
  {
    if s.phase != Propagate then keys
    else if s.gray != [] then
      assert s.gray[0] in s.gray;
      ClearedKey(s, keys)
    else ClearedAtomic(s, keys)
  }

  /** In a step of the mark phase the keys made dead are those of the tables that turn black. */
  lemma StepClears(s: State, keys: KeyMap)
    requires Inv(s) && s.phase == Propagate
    ensures Legal(s, Step) && Cleared(s.heap, SingleStep(s).heap, keys) == ClearedStep(s, keys)
  {
    StepLegal(s);
    PropagateMarkPhase(s);
    hide Inv, TriColour, PropagateMark, Atomic, AtomicMark, ClearedAtomic, ClearedKey;
    if s.gray != [] {
      FirstGray(s);
      PropagateClears(s, keys);
    } else {
      AtomicClears(s, keys);
      AtomicHeap(s);
    }
  }

  lemma AtomicHeap(s: State)
    requires Queued(s)
    ensures Atomic(s).heap == AtomicMark(s).heap
  {
    hide AtomicMark;
  }

  /** The keys of tables after a step: what was traversed has none that are not dead, what has been freed has none,
      and a new object at its address starts without. */
  function KeysAfter(h: Heap, k: Heap, keys: KeyMap): KeyMap {
    map a | a in keys && a in h && a in k && k[a].body.Table? :: Cleared(h, k, keys)[a]
  }

  function With(x: Keyed, r: State): Keyed { Keyed(r, KeysAfter(x.s.heap, r.heap, x.keys)) }

  // ----- events

  /** A store into a table: what it holds afterwards it held before, or was the key of an empty entry that the store
      has found again, or is v, at which alone the barrier looks; `empty` are the keys of empty entries afterwards.
      luaC_fullgc is Abandon, if the collector pauses or marks, steps to the end of the sweep, Restart, and steps to
      the end of the collection. */
  datatype KeyEvent =
    | Other(e: Event)
    | Assign(t: Addr, body: Body, empty: set<Addr>, v: Value)
    | Abandon
    | Restart

  predicate Known(x: Keyed, t: Addr, v: Value, c: Addr)
    requires t in x.s.heap
  {
    c in BodyRefs(x.s.heap[t].body) || c in KeysOf(x.keys, t) || v == Ref(c)
  }

  ghost predicate KeyLegal(x: Keyed, e: KeyEvent) {
    match e
    case Other(e) => !e.StoreTable? && Legal(x.s, e)
    case Assign(t, body, empty, v) =>
      && t in x.s.heap && Reachable(x.s, t) && x.s.heap[t].body.Table? && body.Table? && Holds(x.s, v)
      && (forall c :: c in BodyRefs(body) ==> Known(x, t, v, c))
      && (forall c :: c in empty ==> Known(x, t, v, c))
    case Abandon => x.s.phase == Pause || x.s.phase == Propagate
    case Restart => x.s.phase == Finalize && IsThread(x.s.heap, x.s.mainthread)
  }

  lemma TableRefs(b: Body, c: Addr)
    requires b.Table?
    ensures c in BodyRefs(b) <==> b.metatable == Some(c) || Ref(c) in b.arr || InNode(b.nodes, c)
  {
    ValueRefsIn(b.arr);
    NodeRefsIn(b.nodes, c);
    hide ValueRefs, NodeRefs, InNode;
  }

  /** The events include every store that a program can make into a table it can reach, of a value it holds: into an
      array slot, */
  lemma SlotStores(x: Keyed, t: Addr, i: nat, v: Value)
    requires t in x.s.heap && Reachable(x.s, t) && x.s.heap[t].body.Table? && Holds(x.s, v)
    requires i < |x.s.heap[t].body.arr|
    ensures var b := x.s.heap[t].body; KeyLegal(x, Assign(t, b.(arr := b.arr[i := v]), KeysOf(x.keys, t), v))
  {
    hide Reachable, BodyRefs, InNode;
    var b := x.s.heap[t].body;
    var b2 := b.(arr := b.arr[i := v]);
    forall c | c in BodyRefs(b2) ensures Known(x, t, v, c) {
      TableRefs(b, c);
      TableRefs(b2, c);
    }
  }

  /** ... into a node, whose key may be the key of an empty entry as long as it is not dead, and becomes one when v is
      nil, */
  lemma NodeStores(x: Keyed, t: Addr, i: nat, v: Value)
    requires t in x.s.heap && Reachable(x.s, t) && x.s.heap[t].body.Table? && Holds(x.s, v)
    requires i < |x.s.heap[t].body.nodes|
    requires var (k, w) := x.s.heap[t].body.nodes[i]; w != Nil || !k.Ref? || k.addr in KeysOf(x.keys, t)
    ensures var b := x.s.heap[t].body;
            var k := b.nodes[i].0;
            KeyLegal(x, Assign(t, b.(nodes := b.nodes[i := (k, v)]),
                               KeysOf(x.keys, t) + (if k.Ref? then {k.addr} else {}), v))
  {
    hide Reachable, BodyRefs;
    var b := x.s.heap[t].body;
    var k := b.nodes[i].0;
    var b2 := b.(nodes := b.nodes[i := (k, v)]);
    forall c | c in BodyRefs(b2) || (k.Ref? && c == k.addr) ensures Known(x, t, v, c) {
      TableRefs(b, c);
      TableRefs(b2, c);
      assert InNode(b2.nodes, c) ==> InNode(b.nodes, c) || k == Ref(c) || v == Ref(c);
    }
  }

  /** ... of a new key into an empty node, with newkey's barrier on the key, */
  lemma KeyStores(x: Keyed, t: Addr, i: nat, k: Value)
    requires t in x.s.heap && Reachable(x.s, t) && x.s.heap[t].body.Table? && Holds(x.s, k)
    requires i < |x.s.heap[t].body.nodes| && x.s.heap[t].body.nodes[i].1 == Nil
    ensures var b := x.s.heap[t].body;
            KeyLegal(x, Assign(t, b.(nodes := b.nodes[i := (k, Nil)]),
                               KeysOf(x.keys, t) + (if k.Ref? then {k.addr} else {}), k))
  {
    hide Reachable, BodyRefs;
    var b := x.s.heap[t].body;
    var b2 := b.(nodes := b.nodes[i := (k, Nil)]);
    forall c | c in BodyRefs(b2) ensures Known(x, t, k, c) {
      TableRefs(b, c);
      TableRefs(b2, c);
      assert InNode(b2.nodes, c) ==> InNode(b.nodes, c);
    }
  }

  /** ... and of a new metatable. */
  lemma MetatableStores(x: Keyed, t: Addr, mt: Addr)
    requires t in x.s.heap && Reachable(x.s, t) && x.s.heap[t].body.Table? && Reachable(x.s, mt)
    ensures var b := x.s.heap[t].body; KeyLegal(x,
                                                Assign(t, Table(Some(mt), b.arr, b.nodes), KeysOf(x.keys, t), Ref(mt)))
  {
    hide Reachable, BodyRefs, InNode;
    var b := x.s.heap[t].body;
    var b2 := Table(Some(mt), b.arr, b.nodes);
    forall c | c in BodyRefs(b2) ensures Known(x, t, Ref(mt), c) {
      TableRefs(b, c);
      TableRefs(b2, c);
    }
  }

  function KeyApply(x: Keyed, e: KeyEvent): Keyed
    requires KeyLegal(x, e)
  {
    match e
    case Other(e) => With(x, Apply(x.s, e))
    case Assign(t, body, empty, v) => Keyed(BarrierT(Store(x.s, t, body), t, v), x.keys[t := empty])
    case Abandon => With(x, Abandoned(x.s))
    case Restart => With(x, MarkRoot(x.s))
  }

  // ----- the invariant

  /** No key of a live table has been freed or is about to be. */
  ghost predicate KeysLive(s: State, keys: KeyMap) {
    forall a, c :: Live(s, a) && c in KeysOf(keys, a) ==> Live(s, c)
  }

  /** No key of a black table is white. */
  ghost predicate KeysSettled(h: Heap, keys: KeyMap) {
    forall a, c :: BlackTable(h, a) && c in KeysOf(keys, a) ==> !IsWhite(h, c)
  }

  ghost predicate KeyInv(x: Keyed) {
    && Inv(x.s) && KeysLive(x.s, x.keys)
    && (x.s.phase == Propagate ==> KeysSettled(x.s.heap, x.keys))
  }

  // ----- what leaves the keys alone

  ghost predicate NoBlackTables(h: Heap) { forall a :: !BlackTable(h, a) }

  /** Nothing live dies, no table comes to life, and marking only grows. */
  ghost predicate Calm(s: State, r: State) {
    && (forall c :: Live(s, c) ==> Live(r, c))
    && (forall a :: a in s.heap && Live(r, a) && r.heap[a].body.Table? ==> Live(s, a))
    && (r.phase == Propagate ==>
          && (forall c :: c in s.heap && IsWhite(r.heap, c) ==> IsWhite(s.heap, c))
          && (s.phase == Propagate || NoBlackTables(s.heap)))
  }

  lemma CalmKeeps(s: State, r: State, keys: KeyMap)
    requires KeyInv(Keyed(s, keys)) && Inv(r) && Calm(s, r)
    ensures KeyInv(Keyed(r, KeysAfter(s.heap, r.heap, keys)))
  {
    hide Inv;
    var after := KeysAfter(s.heap, r.heap, keys);
    forall a, c | Live(r, a) && c in KeysOf(after, a) ensures Live(r, c) {
      assert Live(s, a) && c in KeysOf(keys, a);
    }
    if r.phase == Propagate {
      forall a, c | BlackTable(r.heap, a) && c in KeysOf(after, a) ensures !IsWhite(r.heap, c) {
        assert BlackTable(s.heap, a) && Live(s, a) && c in KeysOf(keys, a);
        assert Live(s, c);
      }
    }
  }

  /** Old objects keep their marks, and no mark phase starts. */
  ghost predicate SameMarks(s: State, r: State) {
    && (r.phase == s.phase || r.phase != Propagate) && r.white == s.white
    && forall c :: c in s.heap ==> c in r.heap && r.heap[c].mark == s.heap[c].mark && r.heap[c].fixed == s.heap[c].fixed
  }

  lemma SameMarksCalm(s: State, r: State)
    requires SameMarks(s, r)
    ensures Calm(s, r)
  {
  }

  // ----- collector steps

  lemma WhiteCalm(s: State, r: State)
    requires forall a :: a in s.heap ==> CurrentWhite(s, a)
    requires r.white == s.white && r.heap.Keys == s.heap.Keys
    requires forall a :: a in s.heap ==> r.heap[a].mark == s.heap[a].mark || !r.heap[a].mark.White?
    ensures Calm(s, r)
  {
  }

  lemma AllCurrentWhite(s: State)
    requires Inv(s) && (s.phase == Pause || s.phase == Finalize)
    ensures IsThread(s.heap, s.mainthread) && forall a :: a in s.heap ==> CurrentWhite(s, a)
  {
    hide Lists, Kinds, LiveClosed;
  }

  lemma MarkRootMarks(s: State)
    requires IsThread(s.heap, s.mainthread)
    ensures var r := MarkRoot(s);
            && r.white == s.white && r.heap.Keys == s.heap.Keys
            && forall a :: a in s.heap ==> r.heap[a].mark == s.heap[a].mark || !r.heap[a].mark.White?
  {
    MarkAllMarks(s.(gray := [], grayagain := []),
      [s.mainthread] + ValueRef(s.heap[s.mainthread].body.gt) + ValueRef(s.registry) + OptRefs(s.mt));
    hide MarkAll, Settled, NoDup;
  }

  lemma MarkRootCalm(s: State)
    requires Inv(s) && (s.phase == Pause || s.phase == Finalize)
    ensures IsThread(s.heap, s.mainthread) && Calm(s, MarkRoot(s))
  {
    hide Inv, MarkRoot, Calm;
    AllCurrentWhite(s);
    MarkRootMarks(s);
    WhiteCalm(s, MarkRoot(s));
  }

  lemma GrownCalm(s: State, r: State)
    requires Grown(s, r) && s.phase == Propagate && NoOtherWhite(s) && NoOtherWhite(r)
    ensures Calm(s, r)
  {
  }

  lemma PropagateCalm(s: State)
    requires Inv(s) && s.phase == Propagate && s.gray != []
    ensures s.gray[0] in s.heap && Calm(s, PropagateMark(s))
  {
    PropagateMarkPhase(s);
    hide Inv, Calm, Queued;
    PropagateMarkKeeps(s);
    PropagateGrown(s);
    assert NoOtherWhite(s) && NoOtherWhite(PropagateMark(s)) by { PhaseWhites(s); PhaseWhites(PropagateMark(s)); }
    hide PropagateMark, MarkPhase, TriColour, Grown;
    GrownCalm(s, PropagateMark(s));
  }

  lemma PhaseWhites(s: State)
    requires MarkPhase(s)
    ensures NoOtherWhite(s)
  {
  }

  /** At the end of the atomic marking every marked table is black. */
  lemma AtomicBlack(s: State)
    requires Inv(s) && s.phase == Propagate
    ensures Queued(s)
    ensures var r := AtomicMark(s);
            && Grown(s, r) && NoOtherWhite(r)
            && forall a :: a in r.heap && r.heap[a].body.Table? && !r.heap[a].mark.White? ==> BlackTable(r.heap, a)
  {
    PropagateMarkPhase(s);
    hide Inv;
    AtomicMarks(s);
    AtomicAgain(s);
    var r := AtomicMark(s);
    hide AtomicMark, Grown, ThreadsDone;
    MarkedSetParts(r);
    PhaseWhites(r);
    assert GrayQueued(r) by { hide GrayQueued; TriColourQueued(r); }
    hide TriColour, MarkPhase, Queued, MarkedSet, UpvaluesDone;
  }

  lemma TriColourQueued(s: State)
    requires TriColour(s)
    ensures GrayQueued(s)
  {
    hide GrayLists, BlackSettled, GrayQueued;
  }

  lemma NotFixed(s: State, a: Addr)
    requires Kinds(s) && Cursors(s) && a in s.heap && s.heap[a].body.Table?
    ensures !s.heap[a].fixed
  {
  }

  /** After the flip the keys that are not dead are those of tables that stayed black, and they are marked. */
  lemma FlipKeys(s: State, m: State, keys: KeyMap)
    requires KeysLive(s, keys) && KeysSettled(s.heap, keys)
    requires Grown(s, m) && NoOtherWhite(m)
    requires forall a :: a in m.heap && m.heap[a].body.Table? && !m.heap[a].mark.White? ==> BlackTable(m.heap, a)
    requires forall a :: a in m.heap && m.heap[a].body.Table? ==> !m.heap[a].fixed
    ensures KeysLive(Flip(m), KeysAfter(s.heap, m.heap, keys))
  {
    var r, after := Flip(m), KeysAfter(s.heap, m.heap, keys);
    forall a, c | Live(r, a) && c in KeysOf(after, a) ensures Live(r, c) {
      assert c in KeysOf(keys, a) && BlackTable(s.heap, a);
      assert Live(s, c) && !IsWhite(s.heap, c);
    }
  }

  lemma AtomicStepKeeps(x: Keyed)
    requires KeyInv(x) && x.s.phase == Propagate
    ensures Queued(x.s) && KeyInv(Keyed(Atomic(x.s), KeysAfter(x.s.heap, Atomic(x.s).heap, x.keys)))
  {
    var s := x.s;
    AtomicBlack(s);
    AtomicKeeps(s);
    var m := AtomicMark(s);
    hide AtomicMark, Inv, KeysLive, KeysSettled, KeysAfter, Grown, NoOtherWhite, BlackTable;
    forall a | a in m.heap && m.heap[a].body.Table? ensures !m.heap[a].fixed { FlippedNotFixed(m, a); }
    FlipKeys(s, m, x.keys);
  }

  lemma FlippedNotFixed(m: State, a: Addr)
    requires Inv(Flip(m)) && a in m.heap && m.heap[a].body.Table?
    ensures !m.heap[a].fixed
  {
    hide Inv;
    Parts(Flip(m));
    hide Lists, Colours, LiveClosed;
    NotFixed(Flip(m), a);
  }

  lemma SweptCalm(s: State, r: State)
    requires KeepsLive(s, r) && r.phase != Propagate
    ensures Calm(s, r)
  {
    hide View, Roots;
  }

  lemma StepCalm(s: State)
    requires Inv(s) && !(s.phase == Propagate && s.gray == [])
    ensures Legal(s, Step) && Calm(s, SingleStep(s))
  {
    StepLegal(s);
    hide Inv, MarkRoot, PropagateMark, SweepBucket, SweepRoot, KeepsLive, Calm;
    match s.phase
    case Pause => MarkRootCalm(s);
    case Propagate => PropagateCalm(s);
    case SweepString => SweepStringKeeps(s); SweepStepPhase(s); SweptCalm(s, SingleStep(s));
    case Sweep => SweepStepKeeps(s); SweepStepPhase(s); SweptCalm(s, SingleStep(s));
    case Finalize => SameMarksCalm(s, SingleStep(s));
  }

  lemma StepIsAtomic(s: State)
    requires Legal(s, Step) && s.phase == Propagate && s.gray == []
    ensures SingleStep(s) == Atomic(s)
  {
    hide Atomic;
  }

  /** singlestep keeps the invariant of the keys. */
  lemma KeyStepKeeps(x: Keyed)
    requires KeyInv(x)
    ensures Legal(x.s, Step) && KeyInv(Keyed(SingleStep(x.s), KeysAfter(x.s.heap, SingleStep(x.s).heap, x.keys)))
  {
    hide Inv, SingleStep, Atomic, Calm, KeysLive, KeysSettled, KeysAfter, Queued;
    var s := x.s;
    StepKeeps(s);
    if s.phase == Propagate && s.gray == [] {
      AtomicStepKeeps(x);
      StepIsAtomic(s);
    } else {
      StepCalm(s);
      CalmKeeps(s, SingleStep(s), x.keys);
    }
  }

  // ----- what the program does

  lemma PushMarks(s: State, v: Value)
    ensures SameMarks(s, Push(s, v))
  {
  }

  lemma SameMarksTrans(s: State, t: State, r: State)
    requires SameMarks(s, t) && SameMarks(t, r)
    ensures SameMarks(s, r)
  {
  }

  lemma NewMarks(s: State, e: Event)
    requires Inv(s) && Legal(s, e) && (e.New? || e.NewUdata? || e.NewString?)
    ensures SameMarks(s, Apply(s, e))
  {
    hide Inv, Push, Reachable, BodyRefs;
    match e
    case New(a, body) =>
      var t := Link(Insert(s, a, body), a);
      PushMarks(t, Ref(a));
      SameMarksTrans(s, t, Push(t, Ref(a)));
    case NewUdata(a, mt, env) =>
      var t := LinkAfterMain(Insert(s, a, Udata(mt, env)), a);
      PushMarks(t, Ref(a));
      SameMarksTrans(s, t, Push(t, Ref(a)));
    case NewString(a, hash) =>
      var t := LinkString(Insert(s, a, Str(hash)), a, hash);
      PushMarks(t, Ref(a));
      SameMarksTrans(s, t, Push(t, Ref(a)));
  }

  lemma WriteMarks(s: State, e: Event)
    requires Legal(s, e) && (e.StoreStack? || e.Resume? || e.SetMetatable?)
    ensures SameMarks(s, Apply(s, e))
  {
    hide Reachable;
  }

  lemma SlotMarks(s: State, uv: Addr, v: Value)
    requires Legal(s, SetOpenUpval(uv, v)) && !s.heap[uv].mark.Black?
    ensures SameMarks(s, Apply(s, SetOpenUpval(uv, v)))
  {
    hide Reachable;
  }

  lemma OpenNotBlack(s: State, uv: Addr)
    requires Inv(s) && uv in s.heap && s.heap[uv].body.UpOpen?
    ensures !s.heap[uv].mark.Black?
  {
    hide Lists, Colours, LiveClosed, TriColour;
  }

  lemma ResurrectCalm(s: State, a: Addr)
    requires Inv(s) && a in s.heap && !s.heap[a].body.Table?
    ensures Calm(s, Resurrect(s, a))
  {
    hide Inv;
    if OtherWhite(s, a) { NotMarking(s, a); }
  }

  lemma NotMarking(s: State, a: Addr)
    requires Inv(s) && OtherWhite(s, a)
    ensures s.phase != Propagate
  {
    hide Lists, Kinds, LiveClosed, TriColour;
  }

  /** Two steps, the second of which keeps all marks. */
  lemma CalmThen(s: State, t: State, r: State)
    requires Calm(s, t) && SameMarks(t, r) && r.phase == t.phase
    requires forall a :: a in s.heap && a in t.heap ==> a in r.heap && (r.heap[a].body.Table? ==> t.heap[a].body.Table?)
    requires forall a :: a in s.heap ==> a in t.heap
    ensures Calm(s, r)
  {
  }

  lemma PushBodies(s: State, v: Value)
    ensures var r := Push(s, v);
            SameMarks(s, r) && r.phase == s.phase && r.heap.Keys == s.heap.Keys
            && forall a :: a in s.heap && r.heap[a].body.Table? ==> s.heap[a].body.Table?
  {
  }

  lemma PushCalm(s: State, t: State, v: Value)
    requires Calm(s, t) && forall c :: c in s.heap ==> c in t.heap
    ensures Calm(s, Push(t, v))
  {
    hide Calm, SameMarks, Push;
    PushBodies(t, v);
    CalmThen(s, t, Push(t, v));
  }

  lemma FindCalm(s: State, e: Event)
    requires Inv(s) && Legal(s, e) && (e.FindString? || e.Capture?)
    ensures Calm(s, Apply(s, e))
  {
    hide Inv, Push, Resurrect, FindUpval, Calm, SameMarks, Reachable;
    match e
    case FindString(a) =>
      ResurrectCalm(s, a);
      ResurrectKeys(s, a);
      PushCalm(s, Resurrect(s, a), Ref(a));
    case Capture(a, level) =>
      CaptureCalm(s, a, level);
      var (r, uv) := FindUpval(s, level, a);
      PushCalm(s, r, Ref(uv));
  }

  lemma CaptureCalm(s: State, a: Addr, level: nat)
    requires Inv(s) && Legal(s, Capture(a, level))
    ensures Calm(s, FindUpval(s, level, a).0) && forall c :: c in s.heap ==> c in FindUpval(s, level, a).0.heap
  {
    hide Inv, Resurrect, NewUpval, Calm, FindPos;
    var l := s.heap[s.running].body.openupval;
    var i := FindPos(s.heap, l, level);
    if i < |l| && Level(s.heap, l[i]) == level {
      assert OpenOn(s.heap, l[i], s.running) by { hide OpenOn; ListedOpen(s, i); }
      ResurrectCalm(s, l[i]);
      ResurrectKeys(s, l[i]);
    } else {
      NewUpvalMarks(s, a, level, i);
      SameMarksCalm(s, NewUpval(s, a, level, i));
    }
  }

  lemma ListedOpen(s: State, i: nat)
    requires Inv(s) && IsThread(s.heap, s.running) && i < |s.heap[s.running].body.openupval|
    ensures OpenOn(s.heap, s.heap[s.running].body.openupval[i], s.running)
  {
    Parts(s);
    hide Inv, Kinds, Colours, LiveClosed;
    OpenElement(s.heap, s.running, i);
  }

  lemma ResurrectKeys(s: State, a: Addr)
    ensures Resurrect(s, a).heap.Keys == s.heap.Keys
  {
  }

  lemma NewUpvalMarks(s: State, a: Addr, level: nat, i: nat)
    requires IsThread(s.heap, s.running) && i <= |s.heap[s.running].body.openupval| && a !in s.heap
    ensures SameMarks(s, NewUpval(s, a, level, i))
  {
  }

  lemma CloseOneWhites(s: State, th: Addr)
    requires NoOtherWhite(s) && s.phase == Propagate
    requires IsThread(s.heap, th) && s.heap[th].body.openupval != []
    requires OpenOn(s.heap, s.heap[th].body.openupval[0], th)
    ensures forall c :: c in s.heap && IsWhite(CloseOne(s, th).heap, c) ==> IsWhite(s.heap, c)
    ensures forall c :: c in s.heap ==> c in CloseOne(s, th).heap
  {
    hide CloseOne;
    var b := CloseOneMarking(s, th);
    hide Settled, View;
  }

  lemma {:induction false} CloseWhites(s: State, th: Addr, level: nat)
    requires Inv(s) && s.phase == Propagate && IsThread(s.heap, th)
    ensures forall c :: c in s.heap && IsWhite(Close(s, th, level).heap, c) ==> IsWhite(s.heap, c)
    decreases |s.heap[th].body.openupval|
  {
    hide Inv, CloseOne, NoOtherWhite, KeepsLive;
    var l := s.heap[th].body.openupval;
    if l != [] && OpenOn(s.heap, l[0], th) && s.heap[l[0]].body.level >= level {
      MarkPhaseWhites(s);
      CloseOneThread(s, th);
      CloseOneKeeps(s, th, {});
      CloseOneKeepsLive(s, th, {});
      CloseOneWhites(s, th);
      CloseWhites(CloseOne(s, th), th, level);
    }
  }

  lemma MarkPhaseWhites(s: State)
    requires Inv(s) && s.phase == Propagate
    ensures NoOtherWhite(s)
  {
    hide Lists, Kinds, LiveClosed, TriColour;
  }

  lemma CloseCalm(s: State, level: nat)
    requires Inv(s)
    ensures Calm(s, Close(s, s.running, level))
  {
    hide Inv, Close, KeepsLive, Calm;
    assert IsThread(s.heap, s.running) by { Parts(s); hide Lists, Kinds, Colours, LiveClosed; }
    CloseKeeps(s, s.running, level, {});
    if s.phase == Propagate { CloseWhites(s, s.running, level); }
    KeptCalm(s, Close(s, s.running, level));
  }

  lemma KeptCalm(s: State, r: State)
    requires KeepsLive(s, r) && r.phase == s.phase
    requires s.phase == Propagate ==> forall c :: c in s.heap && IsWhite(r.heap, c) ==> IsWhite(s.heap, c)
    ensures Calm(s, r)
  {
    hide View, Roots;
  }

  lemma MarkedNoOther(s: State, r: State)
    requires Marked(s, r) && NoOtherWhite(s)
    ensures NoOtherWhite(r)
  {
    hide Settled;
  }

  lemma BarrierCalm(s: State, o: Addr, v: Value)
    requires o in s.heap && (s.phase == Propagate ==> NoOtherWhite(s))
    ensures Calm(s, Barrier(s, o, v))
  {
    var r := Barrier(s, o, v);
    if s.phase == Propagate {
      if v.Ref? { MarkAllMarks(s, [v.addr]); }
      MarkedRefl(s);
      assert Marked(s, r);
      hide MarkAll, Barrier, Settled, Marked;
      MarkedGrown(s, r);
      MarkedNoOther(s, r);
      GrownCalm(s, r);
    }
  }

  lemma StoredCalm(s: State, t: State, r: State)
    requires Calm(t, r) && t == s.(heap := t.heap) && t.heap.Keys == s.heap.Keys
    requires forall a :: a in s.heap ==> t.heap[a].mark == s.heap[a].mark && t.heap[a].fixed == s.heap[a].fixed
    requires forall a :: a in s.heap ==> t.heap[a].body.Table? == s.heap[a].body.Table?
    ensures Calm(s, r)
  {
    assert forall a :: BlackTable(t.heap, a) == BlackTable(s.heap, a);
  }

  lemma ObjectCalm(s: State, o: Addr, body: Body, v: Value)
    requires Inv(s) && Legal(s, StoreObject(o, body, v))
    ensures Calm(s, Barrier(Store(s, o, body), o, v))
  {
    assert o in s.heap && SameShape(s.heap[o].body, body);
    hide Inv, Legal, Barrier, Calm;
    if s.phase == Propagate { MarkPhaseWhites(s); }
    StoredBarrier(s, o, body, v);
  }

  lemma StoredBarrier(s: State, o: Addr, body: Body, v: Value)
    requires o in s.heap && SameShape(s.heap[o].body, body) && (s.phase == Propagate ==> NoOtherWhite(s))
    ensures Calm(s, Barrier(Store(s, o, body), o, v))
  {
    var t := Store(s, o, body);
    assert t.phase == Propagate ==> NoOtherWhite(t);
    hide Barrier, Calm, NoOtherWhite;
    BarrierCalm(t, o, v);
    StoredCalm(s, t, Barrier(t, o, v));
  }

  /** Every event but a store into a table. */
  lemma OtherKeeps(x: Keyed, e: Event)
    requires KeyInv(x) && KeyLegal(x, Other(e))
    ensures KeyInv(KeyApply(x, Other(e)))
  {
    var s := x.s;
    if e.Step? {
      hide KeyInv, Inv, SingleStep;
      KeyStepKeeps(x);
    } else {
      hide Inv, Apply, Calm, SameMarks;
      ApplyKeeps(s, e);
      EventCalm(s, e);
      hide Legal;
      CalmKeeps(s, Apply(s, e), x.keys);
    }
  }

  lemma EventCalm(s: State, e: Event)
    requires Inv(s) && Legal(s, e) && !e.Step? && !e.StoreTable?
    ensures Calm(s, Apply(s, e))
  {
    hide Inv, Calm, SameMarks, Barrier, Store, Close, Push;
    match e
    case StoreObject(o, body, v) => ObjectCalm(s, o, body, v);
    case FindString(_) => FindCalm(s, e);
    case Capture(_, _) => FindCalm(s, e);
    case CloseFrom(level) => CloseCalm(s, level);
    case StoreStack(_, _, _) => WriteMarks(s, e); SameMarksCalm(s, Apply(s, e));
    case SetOpenUpval(uv, v) => OpenNotBlack(s, uv); SlotMarks(s, uv, v); SameMarksCalm(s, Apply(s, e));
    case Resume(_) => WriteMarks(s, e); SameMarksCalm(s, Apply(s, e));
    case SetMetatable(_, _) => WriteMarks(s, e); SameMarksCalm(s, Apply(s, e));
    case New(_, _) => NewMarks(s, e); SameMarksCalm(s, Apply(s, e));
    case NewUdata(_, _, _) => NewMarks(s, e); SameMarksCalm(s, Apply(s, e));
    case NewString(_, _) => NewMarks(s, e); SameMarksCalm(s, Apply(s, e));
    case _ =>
  }

  // ----- stores into tables

  /** What a table knows is live, and not white while the table is black, but for the value the barrier looks at. */
  lemma KnownSafe(x: Keyed, t: Addr, v: Value, c: Addr)
    requires KeyInv(x) && t in x.s.heap && x.s.heap[t].body.Table? && Live(x.s, t) && (v.Ref? ==> Live(x.s, v.addr))
    requires Known(x, t, v, c)
    ensures Live(x.s, c)
    ensures v == Ref(c) || AddsSafely(x.s, t, c)
  {
    var s := x.s;
    Parts(s);
    if c in BodyRefs(s.heap[t].body) {
      assert c in Edges(s.heap, t);
      hide Inv, Edges, BodyRefs, Lists, Kinds, Colours;
      if s.phase == Propagate && s.heap[t].mark.Black? { assert Settled(s.heap, t); }
    }
  }

  lemma AssignHalf(x: Keyed, t: Addr, body: Body, v: Value)
    requires KeyInv(x) && t in x.s.heap && x.s.heap[t].body.Table? && body.Table?
    requires Live(x.s, t) && (v.Ref? ==> Live(x.s, v.addr))
    requires forall c :: c in BodyRefs(body) ==> Known(x, t, v, c)
    ensures HalfStored(x.s, Store(x.s, t, body), t, v)
  {
    hide KeyInv, BodyRefs, Live, AddsSafely, Known;
    forall c | c in BodyRefs(body) ensures v == Ref(c) || AddsSafely(x.s, t, c) { KnownSafe(x, t, v, c); }
  }

  lemma AssignInv(x: Keyed, t: Addr, body: Body, v: Value)
    requires KeyInv(x) && t in x.s.heap && x.s.heap[t].body.Table? && body.Table?
    requires Live(x.s, t) && (v.Ref? ==> Live(x.s, v.addr))
    requires forall c :: c in BodyRefs(body) ==> Known(x, t, v, c)
    ensures Inv(BarrierT(Store(x.s, t, body), t, v))
  {
    AssignHalf(x, t, body, v);
    hide Inv, BodyRefs, Known, Live, HalfStored;
    var s, h := x.s, Store(x.s, t, body);
    if v.Ref? && IsWhite(h.heap, v.addr) && h.heap[t].mark.Black? {
      BackKeeps(s, h, t, v);
    } else {
      StoreKeeps(s, h, t, v);
    }
  }

  lemma AssignKeys(x: Keyed, t: Addr, body: Body, empty: set<Addr>, v: Value)
    requires KeyInv(x) && t in x.s.heap && x.s.heap[t].body.Table? && body.Table?
    requires Live(x.s, t) && (v.Ref? ==> Live(x.s, v.addr))
    requires forall c :: c in empty ==> Known(x, t, v, c)
    ensures var r := BarrierT(Store(x.s, t, body), t, v);
            && KeysLive(r, x.keys[t := empty])
            && (r.phase == Propagate ==> KeysSettled(r.heap, x.keys[t := empty]))
  {
    hide KeyInv, Known, BarrierT, Live;
    forall c | c in empty ensures Live(x.s, c) && (v == Ref(c) || AddsSafely(x.s, t, c)) { KnownSafe(x, t, v, c); }
    KeyParts(x);
    AssignKeysLive(x.s, x.keys, t, body, empty, v);
    if x.s.phase == Propagate { AssignKeysSettled(x.s, x.keys, t, body, empty, v); }
    hide KeysLive, KeysSettled;
    AssignPhase(x.s, t, body, v);
  }

  lemma KeyParts(x: Keyed)
    requires KeyInv(x)
    ensures KeysLive(x.s, x.keys) && (x.s.phase == Propagate ==> KeysSettled(x.s.heap, x.keys))
  {
    hide Inv, KeysLive, KeysSettled;
  }

  lemma AssignPhase(s: State, t: Addr, body: Body, v: Value)
    requires t in s.heap
    ensures BarrierT(Store(s, t, body), t, v).phase == s.phase
  {
  }

  lemma AssignKeysLive(s: State, keys: KeyMap, t: Addr, body: Body, empty: set<Addr>, v: Value)
    requires KeysLive(s, keys) && t in s.heap && Live(s, t)
    requires forall c :: c in empty ==> Live(s, c)
    ensures KeysLive(BarrierT(Store(s, t, body), t, v), keys[t := empty])
  {
    var r := BarrierT(Store(s, t, body), t, v);
    forall a ensures Live(r, a) <==> Live(s, a) {}
    hide Live, BarrierT;
    forall a, c | Live(r, a) && c in KeysOf(keys[t := empty], a) ensures Live(r, c) {
      if a != t { assert c in KeysOf(keys, a); }
    }
  }

  lemma AssignKeysSettled(s: State, keys: KeyMap, t: Addr, body: Body, empty: set<Addr>, v: Value)
    requires KeysSettled(s.heap, keys) && t in s.heap && s.heap[t].body.Table? && body.Table? && s.phase == Propagate
    requires forall c :: c in empty ==> v == Ref(c) || AddsSafely(s, t, c)
    ensures KeysSettled(BarrierT(Store(s, t, body), t, v).heap, keys[t := empty])
  {
    var r := BarrierT(Store(s, t, body), t, v);
    forall a ensures IsWhite(r.heap, a) <==> IsWhite(s.heap, a) {}
    forall a
      ensures BlackTable(r.heap, a) ==> BlackTable(s.heap, a) && (a == t ==> !(v.Ref? && IsWhite(s.heap, v.addr)))
    {
    }
    hide BarrierT, IsWhite;
    forall a, c | BlackTable(r.heap, a) && c in KeysOf(keys[t := empty], a) ensures !IsWhite(r.heap, c) {
      if a != t { assert c in KeysOf(keys, a); }
    }
  }

  lemma AssignKeeps(x: Keyed, t: Addr, body: Body, empty: set<Addr>, v: Value)
    requires KeyInv(x) && KeyLegal(x, Assign(t, body, empty, v))
    ensures KeyInv(KeyApply(x, Assign(t, body, empty, v)))
  {
    assert Inv(x.s);
    ReachableLive(x.s);
    hide Inv, Reachable, BodyRefs, Known, KeysLive, KeysSettled;
    AssignInv(x, t, body, v);
    AssignKeys(x, t, body, empty, v);
  }

  // ----- a full collection

  lemma AbandonEventKeeps(x: Keyed)
    requires KeyInv(x) && KeyLegal(x, Abandon)
    ensures KeyInv(KeyApply(x, Abandon))
  {
    hide Inv, Calm, KeysAfter, KeysLive, KeysSettled;
    AbandonKeeps(x.s);
    SameMarksCalm(x.s, Abandoned(x.s));
    CalmKeeps(x.s, Abandoned(x.s), x.keys);
  }

  lemma RestartKeeps(x: Keyed)
    requires KeyInv(x) && KeyLegal(x, Restart)
    ensures KeyInv(KeyApply(x, Restart))
  {
    hide Inv, Calm, KeysAfter, KeysLive, KeysSettled, MarkRoot;
    MarkRootKeeps(x.s);
    MarkRootCalm(x.s);
    CalmKeeps(x.s, MarkRoot(x.s), x.keys);
  }

  /** Every legal event keeps the collector's invariant and that of the keys. */
  lemma KeyApplyKeeps(x: Keyed, e: KeyEvent)
    requires KeyInv(x) && KeyLegal(x, e)
    ensures KeyInv(KeyApply(x, e))
  {
    hide KeyInv, KeyLegal, KeyApply;
    match e
    case Other(e) => OtherKeeps(x, e);
    case Assign(t, body, empty, v) => AssignKeeps(x, t, body, empty, v);
    case Abandon => AbandonEventKeeps(x);
    case Restart => RestartKeeps(x);
  }

  // ----- whole runs

  ghost predicate LegalRun(x: Keyed, run: seq<KeyEvent>)
    decreases |run|
  {
    run == [] || (KeyLegal(x, run[0]) && LegalRun(KeyApply(x, run[0]), run[1..]))
  }

  function Run(x: Keyed, run: seq<KeyEvent>): Keyed
    requires LegalRun(x, run)
    decreases |run|
  {
    if run == [] then x else Run(KeyApply(x, run[0]), run[1..])
  }

  /** Collector safety over whole runs: after any interleaving of allocations, barriered stores, stores that find
      the key of an empty entry, and collector steps, everything reachable is in the heap and is not about to be
      freed, and no table keeps the key of an empty entry that is. */
  lemma {:induction false} RunSafe(x: Keyed, run: seq<KeyEvent>)
    requires KeyInv(x) && LegalRun(x, run)
    ensures KeyInv(Run(x, run))
    ensures forall a :: Reachable(Run(x, run).s, a) ==> Live(Run(x, run).s, a)
    ensures NoDangling(Run(x, run).s)
    ensures forall a, c :: Reachable(Run(x, run).s, a) && c in KeysOf(Run(x, run).keys, a) ==> Live(Run(x, run).s, c)
    decreases |run|
  {
    hide Inv, KeyLegal, KeyApply, Reachable, Live, NoDangling;
    if run == [] {
      ReachableLive(x.s);
      LiveFields(x.s);
    } else {
      KeyApplyKeeps(x, run[0]);
      RunSafe(KeyApply(x, run[0]), run[1..]);
    }
  }

  /** Safety from the start. */
  lemma SafeFromStart(main: Addr, globals: Addr, registry: Addr, buckets: nat, run: seq<KeyEvent>)
    requires main != globals && main != registry && globals != registry && buckets > 0
    requires LegalRun(Keyed(NewState(main, globals, registry, buckets), map[]), run)
    ensures var r := Run(Keyed(NewState(main, globals, registry, buckets), map[]), run);
      && Inv(r.s) && NoDangling(r.s) && (forall a :: Reachable(r.s, a) ==> Live(r.s, a))
      && forall a, c :: Reachable(r.s, a) && c in KeysOf(r.keys, a) ==> Live(r.s, c)
  {
    hide Inv, LegalRun, Reachable, Live, NewState, NoDangling;
    NewStateInv(main, globals, registry, buckets);
    StartPhase(main, globals, registry, buckets);
    RunSafe(Keyed(NewState(main, globals, registry, buckets), map[]), run);
  }

  lemma StartPhase(main: Addr, globals: Addr, registry: Addr, buckets: nat)
    ensures NewState(main, globals, registry, buckets).phase == Pause
  {
  }
}
