/** The collected heap: objects, their marks, the lists that thread them together, and reachability.

    Freed objects leave the heap, which Dafny's own heap cannot express, so the objects are
    records in a map from addresses; the collector that mutates them in place is a class
    (Collector.dfy) whose fields are the fields of State. */
module GcHeap {
  import opened Wrappers

  type Addr = nat

  /** A tagged value; only Ref is collectable. */
  datatype Value = Nil | Plain(n: int) | Ref(addr: Addr)

  /** The colours the mark byte encodes. White(w) is the white whose bit is w; gray has no colour bit. */
  datatype Mark = White(w: bool) | Gray | Black

  datatype Body =
    | Str(hash: nat)
    | Udata(metatable: Option<Addr>, env: Addr)
    | UpOpen(thread: Addr, level: nat)
    | UpClosed(value: Value)
    | CClosure(env: Addr, upvalues: seq<Value>)
    | LClosure(env: Addr, proto: Addr, upvals: seq<Addr>)
    | Table(metatable: Option<Addr>, arr: seq<Value>, nodes: seq<(Value, Value)>)
    | Thread(gt: Value, stack: seq<Value>, openupval: seq<Addr>)
    | Proto(source: Option<Addr>, k: seq<Value>, upnames: seq<Option<Addr>>,
            protos: seq<Option<Addr>>, locnames: seq<Option<Addr>>)

  datatype Obj = Obj(mark: Mark, fixed: bool, body: Body)

  type Heap = map<Addr, Obj>

  datatype Phase = Pause | Propagate | SweepString | Sweep | Finalize

  /** The global state. The lists are the chains through `next`, `gclist` and the upvalue ring;
      `sweepgc` counts the objects of rootgc before the cell the C pointer points at. */
  datatype State = State(
    heap: Heap,
    rootgc: seq<Addr>,
    strt: seq<seq<Addr>>,
    uvhead: seq<Addr>,
    gray: seq<Addr>,
    grayagain: seq<Addr>,
    white: bool,
    phase: Phase,
    sweepstr: nat,
    sweepgc: nat,
    mainthread: Addr,
    registry: Value,
    mt: seq<Option<Addr>>,
    running: Addr)

  // ----- references held by an object, in the order the traversal functions visit them

  function ValueRef(v: Value): seq<Addr> {
    if v.Ref? then [v.addr] else []
  }

  function ValueRefs(vs: seq<Value>): seq<Addr> {
    if vs == [] then [] else ValueRef(vs[0]) + ValueRefs(vs[1..])
  }

  function OptRef(o: Option<Addr>): seq<Addr> {
    if o.Some? then [o.value] else []
  }

  function OptRefs(os: seq<Option<Addr>>): seq<Addr> {
    if os == [] then [] else OptRef(os[0]) + OptRefs(os[1..])
  }

  /** A node whose value is nil keeps nothing alive. */
  function NodeRefs(ns: seq<(Value, Value)>): seq<Addr> {
    if ns == [] then []
    else (if ns[0].1.Nil? then [] else ValueRef(ns[0].0) + ValueRef(ns[0].1)) + NodeRefs(ns[1..])
  }

  function BodyRefs(b: Body): seq<Addr> {
    match b
    case Str(_) => []
    case Udata(mt, env) => OptRef(mt) + [env]
    case UpOpen(_, _) => []
    case UpClosed(v) => ValueRef(v)
    case CClosure(env, ups) => [env] + ValueRefs(ups)
    case LClosure(env, p, ups) => [env, p] + ups
    case Table(mt, arr, nodes) => OptRef(mt) + ValueRefs(arr) + NodeRefs(nodes)
    case Thread(gt, stack, _) => ValueRef(gt) + ValueRefs(stack)
    case Proto(source, k, upnames, protos, locnames) =>
      OptRef(source) + ValueRefs(k) + OptRefs(upnames) + OptRefs(protos) + OptRefs(locnames)
  }

  /** The value of the stack slot an open upvalue shares. */
  function Slot(h: Heap, th: Addr, level: nat): Value {
    if th in h && h[th].body.Thread? && level < |h[th].body.stack| then h[th].body.stack[level] else Nil
  }

  /** What the program sees of an object: an upvalue shows its value whether it is open or closed, and
      the list of a thread's open upvalues does not show. */
  function View(h: Heap, a: Addr): Body
    requires a in h
  {
    match h[a].body
    case UpOpen(th, level) => UpClosed(Slot(h, th, level))
    case Thread(gt, stack, _) => Thread(gt, stack, [])
    case b => b
  }

  function Edges(h: Heap, a: Addr): seq<Addr> {
    if a in h then BodyRefs(View(h, a)) else []
  }

  // ----- what an object refers to, field by field

  /** A node keeps its key and its value alive, unless the value is nil. */
  ghost predicate InNode(nodes: seq<(Value, Value)>, c: Addr) {
    exists i :: 0 <= i < |nodes| && nodes[i].1 != Nil && (nodes[i].0 == Ref(c) || nodes[i].1 == Ref(c))
  }

  /** A field of the object holds c. An open upvalue holds what the slot it shares holds; the list of open upvalues
      holds nothing. */
  ghost predicate Mentions(h: Heap, a: Addr, c: Addr) {
    a in h &&
    match h[a].body
    case Str(_) => false
    case Udata(mt, env) => mt == Some(c) || env == c
    case UpOpen(th, level) =>
      th in h && h[th].body.Thread? && level < |h[th].body.stack| && h[th].body.stack[level] == Ref(c)
    case UpClosed(v) => v == Ref(c)
    case CClosure(env, ups) => env == c || Ref(c) in ups
    case LClosure(env, p, ups) => env == c || p == c || c in ups
    case Table(mt, arr, nodes) => mt == Some(c) || Ref(c) in arr || InNode(nodes, c)
    case Thread(gt, stack, _) => gt == Ref(c) || Ref(c) in stack
    case Proto(source, k, upnames, protos, locnames) =>
      source == Some(c) || Ref(c) in k || Some(c) in upnames || Some(c) in protos || Some(c) in locnames
  }

  ghost predicate IsRoot(s: State, a: Addr) {
    a == s.mainthread || a == s.running || s.registry == Ref(a) || Some(a) in s.mt
  }

  lemma {:induction false} ValueRefsIn(vs: seq<Value>)
    ensures forall c :: c in ValueRefs(vs) <==> Ref(c) in vs
  {
    if vs != [] { ValueRefsIn(vs[1..]); assert vs == [vs[0]] + vs[1..]; }
  }

  lemma {:induction false} OptRefsIn(os: seq<Option<Addr>>)
    ensures forall c :: c in OptRefs(os) <==> Some(c) in os
  {
    if os != [] { OptRefsIn(os[1..]); assert os == [os[0]] + os[1..]; }
  }

  lemma {:induction false} NodeRefsIn(ns: seq<(Value, Value)>, c: Addr)
    ensures c in NodeRefs(ns) <==> InNode(ns, c)
  {
    if ns != [] {
      NodeRefsIn(ns[1..], c);
      if InNode(ns[1..], c) {
        var i :| 0 <= i < |ns[1..]| && ns[1..][i].1 != Nil && (ns[1..][i].0 == Ref(c) || ns[1..][i].1 == Ref(c));
        assert ns[i + 1] == ns[1..][i];
      }
      if InNode(ns, c) {
        var i :| 0 <= i < |ns| && ns[i].1 != Nil && (ns[i].0 == Ref(c) || ns[i].1 == Ref(c));
        if i > 0 { assert ns[1..][i - 1] == ns[i]; }
      }
    }
  }

  /** What the traversal functions visit is exactly what the fields hold. */
  lemma EdgesExact(h: Heap, a: Addr, c: Addr)
    ensures c in Edges(h, a) <==> Mentions(h, a, c)
  {
    if a in h {
      hide ValueRefs, OptRefs, NodeRefs, InNode;
      match h[a].body
      case CClosure(_, ups) => ValueRefsIn(ups);
      case Table(_, arr, nodes) => ValueRefsIn(arr); NodeRefsIn(nodes, c);
      case Thread(_, stack, _) => ValueRefsIn(stack);
      case Proto(_, k, upnames, protos, locnames) =>
        ValueRefsIn(k);
        OptRefsIn(upnames);
        OptRefsIn(protos);
        OptRefsIn(locnames);
      case _ =>
    }
  }

  lemma RootsExact(s: State, r: Addr)
    ensures r in Roots(s) <==> IsRoot(s, r)
  {
    OptRefsIn(s.mt);
  }

  // ----- colours

  predicate IsWhite(h: Heap, a: Addr) { a in h && h[a].mark.White? }

  function Whites(h: Heap): set<Addr> {
    set a | a in h && h[a].mark.White?
  }

  function SetMark(h: Heap, a: Addr, m: Mark): (r: Heap)
    requires a in h
    ensures r.Keys == h.Keys
    ensures !m.White? ==> Whites(r) == Whites(h) - {a}
  {
    h[a := h[a].(mark := m)]
  }

  /** The kinds that wait on a gray list; the others are never listed. */
  predicate Listed(b: Body) {
    b.CClosure? || b.LClosure? || b.Table? || b.Thread? || b.Proto?
  }

  // ----- reachability

  function Roots(s: State): seq<Addr> {
    [s.mainthread, s.running] + ValueRef(s.registry) + OptRefs(s.mt)
  }

  ghost predicate Path(s: State, p: seq<Addr>) {
    && |p| > 0
    && IsRoot(s, p[0])
    && forall i :: 0 < i < |p| ==> Mentions(s.heap, p[i-1], p[i])
  }

  /** Reachable from the main thread, the running thread, the registry or a type metatable. */
  ghost predicate Reachable(s: State, a: Addr) {
    exists p :: Path(s, p) && p[|p|-1] == a
  }

  /** A property that the roots have and edges keep. */
  ghost predicate ClosedUnder(s: State, good: iset<Addr>) {
    && (forall r :: r in Roots(s) ==> r in good)
    && (forall a, c :: a in good && c in Edges(s.heap, a) ==> c in good)
  }

  /** Reachability is the least such property: it is inside each of them ... */
  lemma {:induction false} PathInside(s: State, good: iset<Addr>, p: seq<Addr>)
    requires ClosedUnder(s, good) && Path(s, p)
    ensures p[|p|-1] in good
    decreases |p|
  {
    hide Edges, Mentions, IsRoot, Roots;
    if |p| > 1 {
      var q := p[..|p|-1];
      assert q[0] == p[0];
      assert forall i :: 0 < i < |q| ==> Mentions(s.heap, q[i-1], q[i]);
      PathInside(s, good, q);
      EdgesExact(s.heap, p[|p|-1-1], p[|p|-1]);
    } else {
      RootsExact(s, p[0]);
    }
  }

  lemma ReachableInside(s: State, good: iset<Addr>)
    requires ClosedUnder(s, good)
    ensures forall a :: Reachable(s, a) ==> a in good
  {
    forall a | Reachable(s, a) ensures a in good {
      var p :| Path(s, p) && p[|p|-1] == a;
      PathInside(s, good, p);
    }
  }

  lemma ReachableStep(s: State, a: Addr, c: Addr)
    requires Reachable(s, a) && c in Edges(s.heap, a)
    ensures Reachable(s, c)
  {
    hide Edges, Mentions, IsRoot;
    var p :| Path(s, p) && p[|p|-1] == a;
    var q := p + [c];
    assert q[0] == p[0];
    EdgesExact(s.heap, a, c);
    forall i | 0 < i < |q| ensures Mentions(s.heap, q[i-1], q[i]) {
      if i < |p| { assert q[i] == p[i] && q[i-1] == p[i-1]; }
    }
    assert Path(s, q) && q[|q|-1] == c;
  }

  lemma ReachableRoot(s: State, r: Addr)
    requires r in Roots(s)
    ensures Reachable(s, r)
  {
    RootsExact(s, r);
    assert Path(s, [r]) && [r][|[r]|-1] == r;
  }

  /** ... and it is one of them. */
  lemma ReachableClosed(s: State)
    ensures ClosedUnder(s, iset a | Reachable(s, a))
  {
    forall r | r in Roots(s) ensures Reachable(s, r) { ReachableRoot(s, r); }
    forall a, c | Reachable(s, a) && c in Edges(s.heap, a) ensures Reachable(s, c) {
      ReachableStep(s, a, c);
    }
  }

  /** Said of roots and fields. */
  lemma ReachableMentions(s: State)
    ensures forall r :: IsRoot(s, r) ==> Reachable(s, r)
    ensures forall a, c :: Reachable(s, a) && Mentions(s.heap, a, c) ==> Reachable(s, c)
  {
    hide Edges, Mentions, IsRoot, Roots, Reachable;
    forall r | IsRoot(s, r) ensures Reachable(s, r) {
      RootsExact(s, r);
      ReachableRoot(s, r);
    }
    forall a, c | Reachable(s, a) && Mentions(s.heap, a, c) ensures Reachable(s, c) {
      EdgesExact(s.heap, a, c);
      ReachableStep(s, a, c);
    }
  }

  /** A state whose roots and whose edges out of s-reachable objects are also s's reaches no more than s. */
  lemma ReachesNoMore(s: State, t: State)
    requires forall r :: r in Roots(t) ==> r in Roots(s)
    requires forall a, c :: Reachable(s, a) && c in Edges(t.heap, a) ==> c in Edges(s.heap, a)
    ensures forall a :: Reachable(t, a) ==> Reachable(s, a)
  {
    var rs := iset a | Reachable(s, a);
    forall r | r in Roots(t) ensures r in rs { ReachableRoot(s, r); }
    forall a, c | a in rs && c in Edges(t.heap, a) ensures c in rs { ReachableStep(s, a, c); }
    ReachableInside(t, rs);
  }

  lemma ReachesAsMuch(s: State, t: State)
    requires forall r :: r in Roots(s) ==> r in Roots(t)
    requires forall a, c :: Reachable(s, a) && c in Edges(s.heap, a) ==> c in Edges(t.heap, a)
    ensures forall a :: Reachable(s, a) ==> Reachable(t, a)
  {
    var both := iset a | Reachable(s, a) && Reachable(t, a);
    forall r | r in Roots(s) ensures r in both { ReachableRoot(s, r); ReachableRoot(t, r); }
    forall a, c | a in both && c in Edges(s.heap, a) ensures c in both {
      ReachableStep(s, a, c);
      ReachableStep(t, a, c);
    }
    ReachableInside(s, both);
  }
}
