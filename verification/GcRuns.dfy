/** One event at a time: every mutator event and collector step keeps the invariant, and no collector step frees
    or changes anything the program can reach. Whole runs are in GcKeys.dfy. */
module GcRuns {
  import opened Wrappers
  import opened GcHeap
  import opened GcMark
  import opened GcSweep
  import opened GcInvariant
  import opened GcClose
  import opened GcSweepKeeps
  import opened GcMutator
  import opened GcMutatorKeeps

  // ----- one collector step

  /** The phase machine of singlestep is defined wherever the invariant holds. */
  lemma StepLegal(s: State)
    requires Inv(s)
    ensures Legal(s, Step)
  {
    if s.phase == Propagate { PropagateMarkPhase(s); }
  }

  lemma PropagateStepKeeps(s: State)
    requires Inv(s) && s.phase == Propagate && s.gray != []
    ensures s.gray[0] in s.heap && Inv(PropagateMark(s))
  {
    PropagateMarkPhase(s);
    hide Inv;
    assert s.gray[0] in s.gray;
    PropagateMarkKeeps(s);
    var r := PropagateMark(s);
    PropagatePhase(s);
    hide PropagateMark;
    FromMarkPhase(r);
  }

  lemma PropagatePhase(s: State)
    requires s.gray != [] && s.gray[0] in s.heap
    ensures PropagateMark(s).phase == s.phase
  {
    PropagateMarked(s);
  }

  lemma FromMarkPhase(s: State)
    requires MarkPhase(s) && TriColour(s) && s.phase == Propagate
    ensures Inv(s)
  {
    hide Lists, Kinds, LiveClosed, BlackSettled, GrayLists;
  }

  lemma SweepStepKeeps(s: State)
    requires Inv(s) && s.phase == Sweep
    ensures IsThread(s.heap, s.mainthread) && Inv(SingleStep(s)) && KeepsLive(s, SingleStep(s))
  {
    OutOfSweep(s, {});
    hide Inv, KeepsLive, SweepRoot, Lists, Kinds, Colours, LiveClosed, OpenLists, RootList;
    SweepRootKeeps(s, GCSWEEPMAX);
    var r := SweepRoot(s, GCSWEEPMAX);
    OutOfSweep(r, {});
    if r.sweepgc >= |r.rootgc| {
      SweepEnd(r);
      KeepsLiveTrans(s, r, r.(phase := Finalize));
    }
  }

  lemma FinalizeKeeps(s: State)
    requires Inv(s) && s.phase == Finalize
    ensures IsThread(s.heap, s.mainthread) && Inv(SingleStep(s))
  {
    var r := SingleStep(s);
    hide Inv;
    Parts(s);
    SameLists(s, r);
    SameLiveClosed(s, r);
    hide Lists, LiveClosed;
    Whole(r);
  }

  /** singlestep keeps the invariant. */
  lemma StepKeeps(s: State)
    requires Inv(s)
    ensures Legal(s, Step) && Inv(SingleStep(s))
  {
    StepLegal(s);
    hide Inv, MarkRoot, PropagateMark, Atomic, SweepBucket, SweepRoot;
    match s.phase
    case Pause => MarkRootKeeps(s);
    case Propagate =>
      if s.gray != [] { PropagateStepKeeps(s); } else { AtomicKeeps(s); }
    case SweepString => SweepStringKeeps(s);
    case Sweep => SweepStepKeeps(s);
    case Finalize => FinalizeKeeps(s);
  }

  predicate Fixed(h: Heap, a: Addr) { a in h && h[a].fixed }

  /** r has everything the program can reach in s and every fixed object of s, looking the same; it reaches nothing
      else, and nothing else is fixed. */
  ghost predicate SameToProgram(s: State, r: State) {
    && Roots(r) == Roots(s)
    && (forall a :: Reachable(s, a) ==> a in s.heap && a in r.heap && View(r.heap, a) == View(s.heap, a))
    && (forall a :: Reachable(s, a) <==> Reachable(r, a))
    && SameFixed(s, r)
  }

  ghost predicate SameFixed(s: State, r: State) {
    && (forall a :: Fixed(s.heap, a) <==> Fixed(r.heap, a))
    && (forall a :: Fixed(s.heap, a) ==> View(r.heap, a) == View(s.heap, a))
  }

  lemma KeepsLiveFixed(s: State, r: State)
    requires KeepsLive(s, r)
    ensures SameFixed(s, r)
  {
    hide View, Roots;
    forall a ensures Fixed(s.heap, a) <==> Fixed(r.heap, a) {
      if Fixed(s.heap, a) { assert Live(s, a); }
      if Fixed(r.heap, a) { assert Live(r, a); }
    }
    forall a | Fixed(s.heap, a) ensures View(r.heap, a) == View(s.heap, a) { assert Live(s, a); }
  }

  lemma SameBodiesFixed(s: State, r: State)
    requires SameBodies(s.heap, r.heap)
    ensures SameFixed(s, r)
  {
    SameViews(s.heap, r.heap);
    hide View;
  }

  lemma LiveEdges(s: State, r: State, a: Addr)
    requires KeepsLive(s, r) && Live(s, a)
    ensures a in s.heap && a in r.heap && View(r.heap, a) == View(s.heap, a) && Edges(r.heap, a) == Edges(s.heap, a)
  {
    hide View, Roots, BodyRefs;
  }

  lemma SameReach(s: State, r: State)
    requires Roots(r) == Roots(s) && forall a :: Reachable(s, a) ==> Edges(r.heap, a) == Edges(s.heap, a)
    ensures forall a :: Reachable(s, a) <==> Reachable(r, a)
  {
    hide Roots, Reachable, Edges;
    ReachesNoMore(s, r);
    ReachesAsMuch(s, r);
  }

  lemma KeepsLiveViews(s: State, r: State)
    requires Inv(s) && KeepsLive(s, r)
    ensures Roots(r) == Roots(s)
    ensures forall a :: Reachable(s, a) ==>
              && a in s.heap && a in r.heap
              && View(r.heap, a) == View(s.heap, a) && Edges(r.heap, a) == Edges(s.heap, a)
  {
    ReachableLive(s);
    hide Inv, View, Roots, Reachable, Edges, Live;
    forall a | Reachable(s, a)
      ensures a in s.heap && a in r.heap && View(r.heap, a) == View(s.heap, a) && Edges(r.heap, a) == Edges(s.heap, a)
    {
      LiveEdges(s, r, a);
    }
  }

  lemma KeepsLiveSame(s: State, r: State)
    requires Inv(s) && KeepsLive(s, r)
    ensures SameToProgram(s, r)
  {
    hide Inv, KeepsLive, View, Roots, Reachable, Edges, SameFixed;
    KeepsLiveFixed(s, r);
    KeepsLiveViews(s, r);
    SameReach(s, r);
  }

  lemma SameBodiesSame(s: State, r: State)
    requires Inv(s) && SameBodies(s.heap, r.heap) && Roots(r) == Roots(s)
    ensures SameToProgram(s, r)
  {
    ReachableLive(s);
    SameBodiesFixed(s, r);
    SameViews(s.heap, r.heap);
    SameEdges(s.heap, r.heap);
    hide Inv, View, Roots, Reachable, Edges, SameFixed;
    ReachesNoMore(s, r);
    ReachesAsMuch(s, r);
  }

  lemma MarkRootBodies(s: State)
    requires s.mainthread in s.heap && s.heap[s.mainthread].body.Thread?
    ensures SameBodies(s.heap, MarkRoot(s).heap) && Roots(MarkRoot(s)) == Roots(s)
  {
    MarkAllMarks(s.(gray := [], grayagain := []),
      [s.mainthread] + ValueRef(s.heap[s.mainthread].body.gt) + ValueRef(s.registry) + OptRefs(s.mt));
  }

  lemma PropagateBodies(s: State)
    requires s.gray != [] && s.gray[0] in s.heap
    ensures SameBodies(s.heap, PropagateMark(s).heap) && Roots(PropagateMark(s)) == Roots(s)
  {
    PropagateGrown(s);
  }

  lemma AtomicBodies(s: State)
    requires Inv(s) && s.phase == Propagate
    ensures Queued(s) && SameBodies(s.heap, Atomic(s).heap) && Roots(Atomic(s)) == Roots(s)
  {
    PropagateMarkPhase(s);
    hide Inv;
    AtomicMarks(s);
    hide AtomicMark;
  }

  /** Safety of one step: whatever the program can reach, and whatever is fixed, survives every collector step
      unchanged. */
  lemma StepSafe(s: State)
    requires Inv(s)
    ensures Legal(s, Step) && SameToProgram(s, SingleStep(s))
  {
    StepLegal(s);
    hide Inv, MarkRoot, PropagateMark, Atomic, SweepBucket, SweepRoot, KeepsLive, SameToProgram;
    match s.phase
    case Pause => MarkRootBodies(s); SameBodiesSame(s, SingleStep(s));
    case Propagate =>
      if s.gray != [] { GrayInHeap(s); PropagateBodies(s); } else { AtomicBodies(s); }
      SameBodiesSame(s, SingleStep(s));
    case SweepString => SweepStringKeeps(s); KeepsLiveSame(s, SingleStep(s));
    case Sweep => SweepStepKeeps(s); KeepsLiveSame(s, SingleStep(s));
    case Finalize => SameBodiesSame(s, SingleStep(s));
  }

  lemma GrayInHeap(s: State)
    requires Inv(s) && s.phase == Propagate && s.gray != []
    ensures s.gray[0] in s.heap
  {
    PropagateMarkPhase(s);
    assert s.gray[0] in s.gray;
  }

  // ----- one mutator event

  lemma HoldsLive(s: State, v: Value)
    requires Inv(s) && Holds(s, v)
    ensures v.Ref? ==> Live(s, v.addr)
  {
    ReachableLive(s);
  }

  lemma StoreTableKeeps(s: State, t: Addr, body: Body, v: Value)
    requires Inv(s) && Legal(s, StoreTable(t, body, v))
    ensures Inv(BarrierT(Store(s, t, body), t, v))
  {
    ReachableLive(s);
    AddsOnlyLive(s, t, body, v);
    hide Inv, Reachable, AddsOnly, AddsLive;
    var h := Store(s, t, body);
    assert HalfStored(s, h, t, v);
    hide HalfStored;
    if v.Ref? && IsWhite(h.heap, v.addr) && h.heap[t].mark.Black? { BackKeeps(s, h, t, v); }
    else { StoreKeeps(s, h, t, v); }
  }

  lemma StoreObjectKeeps(s: State, o: Addr, body: Body, v: Value)
    requires Inv(s) && Legal(s, StoreObject(o, body, v))
    ensures Inv(Barrier(Store(s, o, body), o, v))
  {
    ReachableLive(s);
    AddsOnlyLive(s, o, body, v);
    hide Inv, Reachable, AddsOnly, AddsLive, BarrierF;
    var h := Store(s, o, body);
    assert HalfStored(s, h, o, v);
    hide HalfStored;
    if v.Ref? && IsWhite(h.heap, v.addr) && h.heap[o].mark.Black? { ForwardKeeps(s, h, o, v.addr); }
    else { StoreKeeps(s, h, o, v); }
  }

  lemma StoreStackKeeps(s: State, th: Addr, gt: Value, stack: seq<Value>)
    requires Inv(s) && Legal(s, StoreStack(th, gt, stack))
    ensures Inv(Store(s, th, s.heap[th].body.(gt := gt, stack := stack)))
  {
    ReachableLive(s);
    hide Inv, Reachable;
    var t := Store(s, th, s.heap[th].body.(gt := gt, stack := stack));
    assert StackWritten(s, t, th);
    assert gt.Ref? ==> Live(s, gt.addr);
    forall v: Value | v in stack && v.Ref? ensures Live(s, v.addr) { assert Holds(s, v); }
    hide Legal, Store, Live, Edges;
    StackStoreLive(s, t, th);
    StackWriteKeeps(s, t, th);
  }

  lemma StackStoreLive(s: State, t: State, th: Addr)
    requires StackWritten(s, t, th)
    requires t.heap[th].body.gt.Ref? ==> Live(s, t.heap[th].body.gt.addr)
    requires forall v: Value :: v in t.heap[th].body.stack && v.Ref? ==> Live(s, v.addr)
    ensures forall c :: c in Edges(t.heap, th) ==> Live(s, c)
    ensures forall uv, c ::
      (Live(s, uv) && s.heap[uv].body.UpOpen? && s.heap[uv].body.thread == th && c in Edges(t.heap, uv)) ==> Live(s, c)
  {
    hide Edges, Live;
    ThreadEdges(t.heap, th);
    forall c | c in Edges(t.heap, th) ensures Live(s, c) {
      if Ref(c) in t.heap[th].body.stack { assert Ref(c).Ref?; }
    }
    assert forall uv :: Live(s, uv) ==> uv in s.heap by {
      forall uv | Live(s, uv) ensures uv in s.heap { LiveIn(s, uv); }
    }
    forall uv, c | uv in s.heap && s.heap[uv].body.UpOpen? && s.heap[uv].body.thread == th && c in Edges(t.heap, uv)
      ensures Live(s, c)
    {
      UpvalEdges(t.heap, uv);
      assert Ref(c) in t.heap[th].body.stack && Ref(c).Ref?;
    }
  }

  /** A store through an open upvalue needs no barrier: the upvalue is never black. */
  lemma SetOpenUpvalKeeps(s: State, uv: Addr, v: Value)
    requires Inv(s) && Legal(s, SetOpenUpval(uv, v))
    ensures Inv(Apply(s, SetOpenUpval(uv, v)))
  {
    var th, level := s.heap[uv].body.thread, s.heap[uv].body.level;
    var body := s.heap[th].body.(stack := s.heap[th].body.stack[level := v]);
    var t := Store(s, th, body);
    HoldsLive(s, v);
    Parts(s);
    assert !s.heap[uv].mark.Black?;
    assert OpenList(s.heap, th);
    hide Inv, Reachable, Lists, Kinds, Colours, Cursors, LiveClosed, TriColour, Edges, NoOtherWhite;
    assert Apply(s, SetOpenUpval(uv, v)) == t;
    hide Apply;
    assert StackWritten(s, t, th) by {
      forall u | u in s.heap[th].body.openupval ensures Level(s.heap, u) < |t.heap[th].body.stack| {
        assert OpenOn(s.heap, u, th);
      }
    }
    SlotStoreLive(s, t, th, level, v);
    StackWriteKeeps(s, t, th);
  }

  lemma SlotStoreLive(s: State, t: State, th: Addr, level: nat, v: Value)
    requires Inv(s) && IsThread(s.heap, th) && level < |s.heap[th].body.stack| && (v.Ref? ==> Live(s, v.addr))
    requires t == Store(s, th, s.heap[th].body.(stack := s.heap[th].body.stack[level := v]))
    ensures Live(s, th) ==> forall c :: c in Edges(t.heap, th) ==> Live(s, c)
    ensures forall uv, c ::
      (Live(s, uv) && s.heap[uv].body.UpOpen? && s.heap[uv].body.thread == th && c in Edges(t.heap, uv)) ==> Live(s, c)
  {
    assert LiveClosed(s);
    hide Inv, Edges, Live;
    ThreadEdges(s.heap, th);
    ThreadEdges(t.heap, th);
    if Live(s, th) {
      forall c | c in Edges(t.heap, th) ensures Live(s, c) {
        if v != Ref(c) { assert c in Edges(s.heap, th); }
      }
    }
    forall uv, c |
        Live(s, uv) && uv in s.heap && s.heap[uv].body.UpOpen? && s.heap[uv].body.thread == th && c in Edges(t.heap, uv)
      ensures Live(s, c)
    {
      UpvalEdges(s.heap, uv);
      UpvalEdges(t.heap, uv);
      if v != Ref(c) { assert c in Edges(s.heap, uv); }
    }
    assert forall uv :: Live(s, uv) ==> uv in s.heap by {
      forall uv | Live(s, uv) ensures uv in s.heap { LiveIn(s, uv); }
    }
  }

  lemma RootsChange(s: State, t: State)
    requires Inv(s) && t == s.(running := t.running, mt := t.mt)
    requires IsThread(t.heap, t.running) && forall r :: r in Roots(t) ==> Live(s, r)
    ensures Inv(t)
  {
    hide Inv, Roots;
    Parts(s);
    SameLists(s, t);
    forall a ensures Live(s, a) <==> Live(t, a) {}
    assert LiveClosed(t) by { hide Live, Edges; }
    hide Lists, LiveClosed, Live;
    assert Kinds(t) && Colours(t) && Cursors(t) by { hide Bucket; }
    hide Kinds, Colours;
    assert s.phase == Propagate ==> TriColour(t) by { hide BlackSettled; }
    Whole(t);
  }

  lemma SetMetatableKeeps(s: State, i: nat, mt: Option<Addr>)
    requires Inv(s) && Legal(s, SetMetatable(i, mt))
    ensures Inv(s.(mt := s.mt[i := mt]))
  {
    ReachableLive(s);
    var t := s.(mt := s.mt[i := mt]);
    OptRefsIn(s.mt);
    OptRefsIn(t.mt);
    assert forall r :: r in Roots(s) ==> Live(s, r) by { Parts(s); }
    hide Inv, Reachable, OptRefs, Live;
    forall r | r in Roots(t) ensures Live(s, r) {
      if r !in Roots(s) { assert Some(r) in t.mt && mt == Some(r); }
    }
    assert IsThread(t.heap, t.running);
    RootsChange(s, t);
  }

  lemma ResumeKeeps(s: State, th: Addr)
    requires Inv(s) && Legal(s, Resume(th))
    ensures Inv(s.(running := th))
  {
    ReachableLive(s);
    assert forall r :: r in Roots(s) ==> Live(s, r) by { Parts(s); }
    hide Inv, Reachable, Live;
    RootsChange(s, s.(running := th));
  }

  lemma CloseFromKeeps(s: State, level: nat)
    requires Inv(s)
    ensures Inv(Close(s, s.running, level))
  {
    Parts(s);
    hide Inv;
    CloseKeeps(s, s.running, level, {});
  }

  lemma NewEventKeeps(s: State, a: Addr, body: Body)
    requires Inv(s) && Legal(s, New(a, body))
    ensures Inv(Apply(s, New(a, body)))
  {
    ReachableLive(s);
    hide Inv, Reachable, BodyRefs, Live;
    NewKeeps(s, a, body);
    PushKeeps(Link(Insert(s, a, body), a), Ref(a));
  }

  lemma NewUdataKeeps(s: State, a: Addr, mt: Option<Addr>, env: Addr)
    requires Inv(s) && Legal(s, NewUdata(a, mt, env))
    ensures Inv(Apply(s, NewUdata(a, mt, env)))
  {
    ReachableLive(s);
    hide Inv, Reachable, BodyRefs, Live, Push;
    LinkAfterMainKeeps(s, a, mt, env);
    PushKeeps(LinkAfterMain(Insert(s, a, Udata(mt, env)), a), Ref(a));
  }

  lemma StringEventsKeep(s: State, e: Event)
    requires Inv(s) && Legal(s, e) && (e.NewString? || e.FindString?)
    ensures Inv(Apply(s, e))
  {
    match e
    case NewString(a, hash) =>
      hide Inv, Push, Live;
      LinkStringKeeps(s, a, hash);
      PushKeeps(LinkString(Insert(s, a, Str(hash)), a, hash), Ref(a));
    case FindString(a) =>
      assert Edges(s.heap, a) == [];
      hide Inv, Push, Live, Edges;
      ResurrectKeeps(s, a);
      PushKeeps(Resurrect(s, a), Ref(a));
  }

  lemma CaptureKeeps(s: State, a: Addr, level: nat)
    requires Inv(s) && Legal(s, Capture(a, level))
    ensures Inv(Apply(s, Capture(a, level)))
  {
    hide Inv, Push, Live, FindUpval;
    FindUpvalKeeps(s, level, a);
    var (r, uv) := FindUpval(s, level, a);
    PushKeeps(r, Ref(uv));
  }

  /** Every legal event keeps the collector invariant. */
  lemma ApplyKeeps(s: State, e: Event)
    requires Inv(s) && Legal(s, e)
    ensures Inv(Apply(s, e))
  {
    hide Inv, Push, Store, SingleStep, Close, Barrier, BarrierT;
    match e
    case New(a, body) => NewEventKeeps(s, a, body);
    case NewUdata(a, mt, env) => NewUdataKeeps(s, a, mt, env);
    case NewString(_, _) => StringEventsKeep(s, e);
    case FindString(_) => StringEventsKeep(s, e);
    case StoreTable(t, body, v) => StoreTableKeeps(s, t, body, v);
    case StoreObject(o, body, v) => StoreObjectKeeps(s, o, body, v);
    case StoreStack(th, gt, stack) => StoreStackKeeps(s, th, gt, stack);
    case SetOpenUpval(uv, v) => SetOpenUpvalKeeps(s, uv, v);
    case Capture(a, level) => CaptureKeeps(s, a, level);
    case CloseFrom(level) => CloseFromKeeps(s, level);
    case Resume(th) => ResumeKeeps(s, th);
    case SetMetatable(i, mt) => SetMetatableKeeps(s, i, mt);
    case Step => StepKeeps(s);
  }

  // ----- the state lua_newstate leaves

  const NUM_TAGS: nat := 9

  /** A fixed main thread, the table of globals and the registry, all white. */
  function NewState(main: Addr, globals: Addr, registry: Addr, buckets: nat): State {
    State(map[main := Obj(White(false), true, Thread(Ref(globals), [], [])),
              globals := Obj(White(false), false, Table(None, [], [])),
              registry := Obj(White(false), false, Table(None, [], []))],
          [registry, globals, main], seq(buckets, _ => []), [], [], [], false, Pause, 0, 0,
          main, Ref(registry), seq(NUM_TAGS, _ => None), main)
  }

  lemma NewStateLists(main: Addr, globals: Addr, registry: Addr, buckets: nat)
    requires main != globals && main != registry && globals != registry && buckets > 0
    ensures Lists(NewState(main, globals, registry, buckets))
  {
    var s := NewState(main, globals, registry, buckets);
    hide Bucket;
    assert RootList(s, {}) by { hide StringTable, Ring, OpenLists; }
    assert StringTable(s) by { hide RootList, Ring, OpenLists; }
    assert Ring(s) && OpenLists(s.heap) by { hide RootList, StringTable; }
  }

  lemma NewStateLive(main: Addr, globals: Addr, registry: Addr, buckets: nat)
    requires main != globals && main != registry && globals != registry
    ensures LiveClosed(NewState(main, globals, registry, buckets))
  {
    var s := NewState(main, globals, registry, buckets);
    OptRefsIn(s.mt);
    hide OptRefs;
    assert Edges(s.heap, globals) == [] && Edges(s.heap, registry) == [] && Edges(s.heap, main) == [globals];
    hide Edges;
    forall a ensures Live(s, a) <==> a == main || a == globals || a == registry {}
    hide Live;
  }

  lemma NewStateInv(main: Addr, globals: Addr, registry: Addr, buckets: nat)
    requires main != globals && main != registry && globals != registry && buckets > 0
    ensures Inv(NewState(main, globals, registry, buckets))
  {
    var s := NewState(main, globals, registry, buckets);
    hide Lists, LiveClosed, Inv;
    NewStateLists(main, globals, registry, buckets);
    NewStateLive(main, globals, registry, buckets);
    Whole(s);
  }
}
