/** A full collection: it terminates, and it leaves exactly the reachable and the fixed objects. */
module GcFull {
  import opened Wrappers
  import opened GcHeap
  import opened GcMark
  import opened GcSweep
  import opened GcInvariant
  import opened GcClose
  import opened GcSweepKeeps
  import opened GcMutator
  import opened GcMutatorKeeps
  import opened GcRuns

  // ----- exactness

  /** While marking, only reachable objects are marked; from the atomic step on, only reachable and
      fixed objects are live. */
  ghost predicate Exact(s: State) {
    if s.phase == Propagate then forall a :: a in s.heap && !s.heap[a].mark.White? ==> Reachable(s, a)
    else forall a :: Live(s, a) ==> Reachable(s, a) || s.heap[a].fixed
  }

  ghost function ReachSet(s: State): iset<Addr> { iset a | Reachable(s, a) }

  lemma ReachSetClosed(s: State)
    ensures forall a, c :: a in ReachSet(s) && c in Edges(s.heap, a) ==> c in ReachSet(s)
    ensures forall r :: r in Roots(s) ==> r in ReachSet(s)
  {
    ReachableClosed(s);
    hide Reachable, Edges, Roots;
  }

  /** Marking from reachable references marks reachable objects only. */
  lemma MarkAllExact(s: State, l: seq<Addr>)
    requires forall a :: a in l ==> Reachable(s, a)
    requires forall a :: a in s.heap && !s.heap[a].mark.White? ==> Reachable(s, a)
    ensures var r := MarkAll(s, l); forall a :: a in r.heap && !r.heap[a].mark.White? ==> Reachable(s, a)
  {
    ReachSetClosed(s);
    hide Reachable, Edges;
    MarkAllInside(s, l, ReachSet(s));
    var r := MarkAll(s, l);
    forall a | a in r.heap && !r.heap[a].mark.White? ensures Reachable(s, a) {
      if s.heap[a].mark.White? { assert Newly(s, r, a); }
    }
  }

  lemma SameReachable(s: State, r: State)
    requires SameBodies(s.heap, r.heap) && Roots(r) == Roots(s)
    ensures forall a :: Reachable(s, a) <==> Reachable(r, a)
  {
    SameEdges(s.heap, r.heap);
    hide Edges, Reachable, Roots;
    ReachesNoMore(s, r);
    ReachesAsMuch(s, r);
  }

  lemma RootMarksReachable(s: State)
    requires IsThread(s.heap, s.mainthread)
    ensures forall a ::
      a in [s.mainthread] + ValueRef(s.heap[s.mainthread].body.gt) + ValueRef(s.registry) + OptRefs(s.mt) ==>
      Reachable(s, a)
  {
    var th := s.mainthread;
    ReachSetClosed(s);
    assert th in Roots(s);
    ThreadEdges(s.heap, th);
    hide Reachable, Edges, OptRefs;
    forall a | a in [th] + ValueRef(s.heap[th].body.gt) + ValueRef(s.registry) + OptRefs(s.mt) ensures Reachable(s, a) {
      if a !in Roots(s) { assert a in Edges(s.heap, th); }
      assert a in ReachSet(s);
    }
  }

  lemma MarkRootExact(s: State)
    requires Inv(s) && (s.phase == Pause || s.phase == Finalize)
    ensures IsThread(s.heap, s.mainthread) && Exact(MarkRoot(s))
  {
    Parts(s);
    AllWhiteStart(s);
    hide Inv, MarkPhase, Reachable, Lists, Kinds, Colours, LiveClosed;
    var s1 := s.(gray := [], grayagain := []);
    var th := s.mainthread;
    var l := [th] + ValueRef(s.heap[th].body.gt) + ValueRef(s.registry) + OptRefs(s.mt);
    MarkRootBodies(s);
    assert MarkRoot(s) == MarkAll(s1, l).(phase := Propagate);
    RootMarksReachable(s1);
    MarkAllExact(s1, l);
    assert Roots(s1) == Roots(s);
    hide MarkRoot, Roots, MarkAll;
    SameReachable(s1, MarkRoot(s));
  }

  lemma PropagateMarkExact(s: State)
    requires s.gray != [] && s.gray[0] in s.heap && !s.heap[s.gray[0]].mark.White?
    requires s.phase == Propagate && Exact(s)
    ensures Exact(PropagateMark(s)) && PropagateMark(s).phase == Propagate
  {
    var p, r := Popped(s), PropagateMark(s);
    var l := Edges(s.heap, s.gray[0]);
    assert SameBodies(s.heap, p.heap) && Roots(p) == Roots(s);
    forall a | a in l ensures Reachable(s, a) { ReachableStep(s, s.gray[0], a); }
    hide Reachable, Edges, Roots;
    SameReachable(s, p);
    MarkAllExact(p, l);
    PropagateBodies(s);
    SameReachable(s, r);
    PropagatePhase(s);
  }

  lemma {:induction false} PropagateAllExact(s: State)
    requires Queued(s) && MarkPhase(s) && TriColour(s) && s.phase == Propagate && Exact(s)
    ensures Exact(PropagateAll(s)) && PropagateAll(s).phase == Propagate
    decreases Whites(s.heap), |s.gray|
  {
    hide MarkPhase, TriColour, Exact;
    if s.gray != [] {
      PropagateMarkKeeps(s);
      PropagateQueued(s);
      assert s.gray[0] in s.gray && !s.heap[s.gray[0]].mark.White? by { MarkPhaseGray(s); }
      PropagateMarkExact(s);
      hide PropagateMark, Queued;
      PropagateAllExact(PropagateMark(s));
    }
  }

  lemma {:induction false} RemarkExact(s: State, ring: seq<Addr>)
    requires s.phase == Propagate && Exact(s)
    ensures Exact(RemarkUpvals(s, ring)) && RemarkUpvals(s, ring).phase == Propagate
    decreases |ring|
  {
    if ring != [] {
      var uv := ring[0];
      if uv in s.heap && s.heap[uv].mark.Gray? {
        MarkMoreExact(s, Edges(s.heap, uv), uv);
        RemarkExact(MarkAll(s, Edges(s.heap, uv)), ring[1..]);
      } else {
        RemarkExact(s, ring[1..]);
      }
    }
  }

  lemma MarkMoreExact(s: State, l: seq<Addr>, from: Addr)
    requires s.phase == Propagate && Exact(s)
    requires forall a :: a in l ==>
      a in Roots(s) || (a in Edges(s.heap, from) && from in s.heap && !s.heap[from].mark.White?)
    ensures Exact(MarkAll(s, l)) && MarkAll(s, l).phase == Propagate
  {
    MarkAllMarks(s, l);
    var r := MarkAll(s, l);
    assert Roots(r) == Roots(s);
    hide Edges, Settled;
    SameReachable(s, r);
    forall a | a in l ensures Reachable(s, a) {
      if a in Roots(s) { ReachableRoot(s, a); } else { ReachableStep(s, from, a); }
    }
    hide Reachable;
    MarkAllExact(s, l);
  }

  lemma AtomicMarkExact(s: State)
    requires Inv(s) && s.phase == Propagate && Exact(s)
    ensures Queued(s) && Exact(AtomicMark(s)) && AtomicMark(s).phase == Propagate
  {
    PropagateMarkPhase(s);
    hide Inv, Exact, Reachable;
    AtomicFirstHalf(s);
    var s1 := RemarkUpvals(s, s.uvhead);
    RemarkUpvalsMarks(s, s.uvhead);
    MarkedMarkPhase(s, s1);
    MarkedTriColour(s, s1);
    RemarkExact(s, s.uvhead);
    hide RemarkUpvals, MarkPhase, TriColour, Queued, Marked, Edges, Settled;
    var s2 := PropagateAll(s1);
    PropagateAllExact(s1);
    AtomicSecondHalfExact(s2);
  }

  lemma AtomicSecondHalfExact(s2: State)
    requires MarkedSet(s2) && s2.phase == Propagate && Exact(s2) && Queued(s2) && s2.gray == []
    ensures var l := [s2.running] + OptRefs(s2.mt);
      var s3 := MarkAll(s2, l);
      && Queued(s3)
      && var s4 := PropagateAll(s3); var s5 := s4.(gray := s4.grayagain, grayagain := []);
      && Queued(s5) && Exact(PropagateAll(s5)) && PropagateAll(s5).phase == Propagate
  {
    var l := [s2.running] + OptRefs(s2.mt);
    var s3 := MarkAll(s2, l);
    assert forall a :: a in l ==> a in Roots(s2);
    hide Roots, Reachable, Exact, MarkedSet, Edges, Settled;
    MarkMoreExact(s2, l, s2.running);
    MarkAllMarks(s2, l);
    MarkAllQueued(s2, l);
    MarkedMarkedSet(s2, s3);
    hide MarkAll, Marked;
    MarkedSetParts(s3);
    hide MarkPhase, TriColour, UpvaluesDone;
    var s4 := PropagateAll(s3);
    PropagateAllExact(s3);
    PropagateAllKeeps(s3);
    MarkedSetWhole(s4);
    GrayAgain(s4);
    var s5 := s4.(gray := s4.grayagain, grayagain := []);
    MarkedSetParts(s5);
    ExactAgain(s4, s5);
    PropagateAllExact(s5);
  }

  lemma ExactAgain(s: State, r: State)
    requires Exact(s) && r == s.(gray := s.grayagain, grayagain := [])
    ensures Exact(r)
  {
    assert Roots(r) == Roots(s);
    hide Reachable, Roots;
    SameReachable(s, r);
  }

  lemma FlipExact(s: State)
    requires Exact(s) && s.phase == Propagate && NoOtherWhite(s)
    ensures Exact(Flip(s))
  {
    var t := Flip(s);
    assert Roots(t) == Roots(s);
    hide Reachable, Roots;
    SameReachable(s, t);
    forall a | Live(t, a) ensures Reachable(t, a) || t.heap[a].fixed {
      if s.heap[a].mark.White? { assert s.heap[a].mark == White(s.white); }
    }
  }

  lemma AtomicExact(s: State)
    requires Inv(s) && s.phase == Propagate && Exact(s)
    ensures Queued(s) && Exact(Atomic(s))
  {
    AtomicMarkExact(s);
    PropagateMarkPhase(s);
    hide Inv, Exact;
    AtomicMarks(s);
    var r := AtomicMark(s);
    hide AtomicMark;
    MarkedSetParts(r);
    assert NoOtherWhite(r);
    hide MarkPhase;
    FlipExact(r);
  }

  lemma KeepsExact(s: State, r: State)
    requires Inv(s) && Exact(s) && s.phase != Propagate && r.phase != Propagate && KeepsLive(s, r)
    ensures Exact(r)
  {
    KeepsLiveSame(s, r);
    hide Inv, Reachable, View, Roots;
  }

  lemma MarkStepExact(s: State)
    requires Inv(s) && Exact(s) && s.phase == Propagate
    ensures Legal(s, Step) && Exact(SingleStep(s))
  {
    StepLegal(s);
    hide Inv, Exact, PropagateMark, Atomic;
    if s.gray != [] {
      GrayInHeap(s);
      GrayIsMarked(s);
      PropagateMarkExact(s);
    } else {
      AtomicExact(s);
    }
  }

  lemma SweepStepPhase(s: State)
    requires Inv(s) && (s.phase == SweepString || s.phase == Sweep)
    ensures Legal(s, Step) && SingleStep(s).phase != Propagate
    ensures SingleStep(s).phase != Pause
  {
    StepLegal(s);
    hide Inv, KeepsLive, SweepBucket, SweepRoot;
    if s.phase == Sweep { SweepRootKeeps(s, GCSWEEPMAX); } else { BucketFields(s, s.sweepstr); }
  }

  /** No step of a collection spoils exactness. */
  lemma StepExact(s: State)
    requires Inv(s) && Exact(s) && s.phase != Pause
    ensures Legal(s, Step) && Exact(SingleStep(s))
  {
    StepLegal(s);
    hide Inv, KeepsLive, Exact, SingleStep;
    match s.phase
    case Propagate => MarkStepExact(s);
    case SweepString => SweepStringKeeps(s); SweepStepPhase(s); KeepsExact(s, SingleStep(s));
    case Sweep => SweepStepKeeps(s); SweepStepPhase(s); KeepsExact(s, SingleStep(s));
    case Finalize => FinalizeExact(s);
  }

  lemma GrayIsMarked(s: State)
    requires Inv(s) && s.phase == Propagate && s.gray != [] && s.gray[0] in s.heap
    ensures !s.heap[s.gray[0]].mark.White?
  {
    PropagateMarkPhase(s);
    hide Inv;
    assert s.gray[0] in s.gray;
  }

  lemma FinalizeExact(s: State)
    requires Inv(s) && Exact(s) && s.phase == Finalize
    ensures IsThread(s.heap, s.mainthread) && Exact(SingleStep(s))
  {
    var r := SingleStep(s);
    SameHeapKeeps(s, r);
    hide Inv;
    KeepsExact(s, r);
  }

  /** At the end nothing is left but what is reachable or fixed. */
  lemma ExactEnd(s: State)
    requires Inv(s) && Exact(s) && (s.phase == Pause || s.phase == Finalize)
    ensures forall a :: a in s.heap <==> Reachable(s, a) || (a in s.heap && s.heap[a].fixed)
  {
    ReachableLive(s);
    Parts(s);
    hide Inv, Reachable, Lists, Kinds, LiveClosed;
    forall a | a in s.heap ensures Live(s, a) { assert CurrentWhite(s, a); }
  }

  // ----- giving up a mark phase

  /** What luaC_fullgc does with a mark phase: everything is to be swept back to white, and nothing is dead. */
  function Abandoned(s: State): State {
    s.(sweepstr := 0, sweepgc := 0, gray := [], grayagain := [], phase := SweepString)
  }

  lemma AbandonKeeps(s: State)
    requires Inv(s) && (s.phase == Pause || s.phase == Propagate)
    ensures Inv(Abandoned(s))
  {
    var r := Abandoned(s);
    hide Inv;
    Parts(s);
    SameLists(s, r);
    SameLiveClosed(s, r);
    hide LiveClosed, TriColour, NoOtherWhite;
    assert Colours(r) && Kinds(r) && Cursors(r);
    hide Lists, Colours, Kinds, Cursors;
    Whole(r);
  }

  // ----- termination

  /** What is left of a sweep of rootgc: the objects ahead of the cursor, and the open upvalues that
      may still be linked in front of it. */
  function Unswept(s: State): nat {
    (if s.sweepgc <= |s.rootgc| then |s.rootgc| - s.sweepgc else 0) + |s.uvhead|
  }

  lemma {:induction false} FilterShorter(l: seq<Addr>, keep: set<Addr>, a: Addr)
    requires a in l && a !in keep
    ensures |Filter(l, keep)| < |l|
  {
    if l[0] == a { FilterMembers(l[1..], keep); }
    else { assert l == [l[0]] + l[1..]; FilterShorter(l[1..], keep, a); }
  }

  lemma CloseOneProgress(s: State, th: Addr)
    requires IsThread(s.heap, th) && s.heap[th].body.openupval != []
    requires OpenOn(s.heap, s.heap[th].body.openupval[0], th) && s.heap[th].body.openupval[0] in s.uvhead
    requires s.sweepgc <= |s.rootgc|
    ensures var r := CloseOne(s, th); r.sweepgc <= |r.rootgc| && Unswept(r) <= Unswept(s)
  {
    var uv := s.heap[th].body.openupval[0];
    FilterShorter(s.uvhead, s.heap.Keys - {uv}, uv);
    CloseOneMarks(s, th);
    hide CloseOne, Filter;
  }

  lemma {:induction false} CloseProgress(s: State, th: Addr, level: nat, out: set<Addr>)
    requires Inv(s, out) && IsThread(s.heap, th) && forall a :: a in out ==> IsThread(s.heap, a)
    ensures var r := Close(s, th, level); r.sweepgc <= |r.rootgc| && Unswept(r) <= Unswept(s)
    decreases |s.heap[th].body.openupval|
  {
    assert s.sweepgc <= |s.rootgc|;
    assert OpenList(s.heap, th);
    var l := s.heap[th].body.openupval;
    if l != [] && Level(s.heap, l[0]) >= level {
      assert l[0] in l && OpenOn(s.heap, l[0], th) && l[0] in s.uvhead;
      CloseOneThread(s, th);
      CloseOneProgress(s, th);
      CloseOneKeeps(s, th, out);
      var t := CloseOne(s, th);
      forall a | a in out ensures IsThread(t.heap, a) { StillThread(s, th, a, out); }
      hide Inv, CloseOne, Unswept;
      CloseProgress(t, th, level, out);
    } else if l != [] {
      assert l[0] in l && OpenOn(s.heap, l[0], th);
    }
  }

  lemma EraseRootProgress(s: State)
    requires Inv(s) && s.phase == Sweep && s.sweepgc < |s.rootgc| && Dead(s, s.rootgc[s.sweepgc])
    ensures Unswept(EraseRoot(s)) < Unswept(s)
  {
    var curr := s.rootgc[s.sweepgc];
    hide Inv, KeepsLive, Close, EraseRoot, Unswept;
    UnchainKeeps(s, curr);
    var s2 := s.(rootgc := s.rootgc[..s.sweepgc] + s.rootgc[s.sweepgc + 1..]);
    assert Unswept(s2) < Unswept(s) by { UnchainShorter(s, s2); }
    if IsThread(s2.heap, curr) { CloseProgress(s2, curr, 0, {curr}); } else { NotThreadClose(s2, curr); }
    EraseRootIs(s, s2, curr);
  }

  lemma UnchainShorter(s: State, s2: State)
    requires s.sweepgc < |s.rootgc| && s2 == s.(rootgc := s.rootgc[..s.sweepgc] + s.rootgc[s.sweepgc + 1..])
    ensures Unswept(s2) < Unswept(s)
  {
  }

  lemma EraseRootIs(s: State, s2: State, curr: Addr)
    requires s.sweepgc < |s.rootgc| && curr == s.rootgc[s.sweepgc]
    requires s2 == s.(rootgc := s.rootgc[..s.sweepgc] + s.rootgc[s.sweepgc + 1..])
    ensures Unswept(EraseRoot(s)) == Unswept(Close(s2, curr, 0))
  {
    hide Close;
  }

  lemma SweepRootOneProgress(s: State)
    requires Inv(s) && s.phase == Sweep && s.sweepgc < |s.rootgc|
    ensures s.rootgc[s.sweepgc] in s.heap && Unswept(SweepRootOne(s)) < Unswept(s)
  {
    RootMember(s);
    var curr := s.rootgc[s.sweepgc];
    hide Inv, KeepsLive, SweepOpen, EraseRoot;
    OpenSweptFirst(s, curr);
    SweepOpenShorter(s, curr);
    var s1 := if s.heap[curr].body.Thread? then SweepOpen(s, curr) else s;
    assert Unswept(s1) <= Unswept(s);
    if Dead(s, curr) { EraseRootProgress(s1); }
  }

  lemma SweepOpenShorter(s: State, th: Addr)
    requires th in s.heap
    ensures s.heap[th].body.Thread? ==> |SweepOpen(s, th).uvhead| <= |s.uvhead|
  {
    if s.heap[th].body.Thread? {
      FilterMembers(s.uvhead, SweepList(s, s.heap[th].body.openupval).Keys);
      hide Filter, SweepList;
    }
  }

  lemma {:induction false} SweepRootProgress(s: State, count: nat)
    requires Inv(s) && s.phase == Sweep
    ensures Unswept(SweepRoot(s, count)) <= Unswept(s)
    ensures count > 0 && s.sweepgc < |s.rootgc| ==> Unswept(SweepRoot(s, count)) < Unswept(s)
    decreases count
  {
    hide Inv, KeepsLive, Unswept;
    if count > 0 && s.sweepgc < |s.rootgc| {
      SweepRootOneKeeps(s);
      SweepRootOneProgress(s);
      hide SweepRootOne;
      SweepRootProgress(SweepRootOne(s), count - 1);
    }
  }

  // ----- the termination measure of luaC_fullgc's loops

  function Rank(p: Phase): nat {
    match p
    case Propagate => 4
    case SweepString => 3
    case Sweep => 2
    case Finalize => 1
    case Pause => 0
  }

  function Remaining(s: State): nat {
    match s.phase
    case Propagate => |s.gray|
    case SweepString => if s.sweepstr <= |s.strt| then |s.strt| - s.sweepstr else 0
    case Sweep => Unswept(s)
    case _ => 0
  }

  /** White objects while marking, then the gray list, then the unswept lists. */
  function MarkLeft(s: State): set<Addr> {
    if s.phase == Propagate then Whites(s.heap) else {}
  }

  ghost predicate Progress(s: State, r: State) {
    || Rank(r.phase) < Rank(s.phase)
    || (r.phase == s.phase &&
        (MarkLeft(r) < MarkLeft(s) || (MarkLeft(r) == MarkLeft(s) && Remaining(r) < Remaining(s))))
  }

  lemma MarkProgress(s: State)
    requires Inv(s) && s.phase == Propagate
    ensures Legal(s, Step) && Progress(s, SingleStep(s))
  {
    StepLegal(s);
    hide Inv, PropagateMark, Atomic, Progress;
    if s.gray != [] {
      GrayInHeap(s);
      PropagatePhase(s);
      GrayProgress(s, PropagateMark(s));
    } else {
      AtomicPhase(s);
      RankProgress(s, Atomic(s));
    }
  }

  lemma AtomicPhase(s: State)
    requires Queued(s)
    ensures Atomic(s).phase == SweepString
  {
    hide AtomicMark;
  }

  lemma RankProgress(s: State, r: State)
    requires s.phase == Propagate && r.phase == SweepString
    ensures Progress(s, r)
  {
  }

  lemma GrayProgress(s: State, r: State)
    requires s.phase == Propagate && r.phase == Propagate && Whites(r.heap) <= Whites(s.heap)
    requires Whites(r.heap) == Whites(s.heap) ==> |r.gray| < |s.gray|
    ensures Progress(s, r)
  {
    hide Whites;
  }

  lemma StringProgress(s: State)
    requires Inv(s) && s.phase == SweepString
    ensures Legal(s, Step) && Progress(s, SingleStep(s))
  {
    StepLegal(s);
    hide Inv, SweepBucket;
    BucketFields(s, s.sweepstr);
  }

  lemma SweepProgress(s: State)
    requires Inv(s) && s.phase == Sweep
    ensures Legal(s, Step) && Progress(s, SingleStep(s))
  {
    StepLegal(s);
    hide Inv, SweepRoot, KeepsLive, Unswept, Progress, SingleStep;
    SweepRootProgress(s, GCSWEEPMAX);
    SweepRootKeeps(s, GCSWEEPMAX);
    if s.sweepgc >= |s.rootgc| { SweepRootDone(s); }
    SweepStepProgress(s);
  }

  lemma SweepStepProgress(s: State)
    requires s.phase == Sweep && IsThread(s.heap, s.mainthread)
    requires SweepRoot(s, GCSWEEPMAX).phase == Sweep && Unswept(SweepRoot(s, GCSWEEPMAX)) <= Unswept(s)
    requires s.sweepgc < |s.rootgc| ==> Unswept(SweepRoot(s, GCSWEEPMAX)) < Unswept(s)
    requires s.sweepgc >= |s.rootgc| ==> SweepRoot(s, GCSWEEPMAX) == s
    ensures Progress(s, SingleStep(s))
  {
    hide SweepRoot, Unswept, Whites;
  }

  /** Every step of a collection makes progress. */
  lemma StepProgress(s: State)
    requires Inv(s) && s.phase != Pause
    ensures Legal(s, Step) && Progress(s, SingleStep(s))
  {
    StepLegal(s);
    match s.phase
    case Propagate => hide Inv, Progress, SingleStep; MarkProgress(s);
    case SweepString => hide Inv, Progress, SingleStep; StringProgress(s);
    case Sweep => hide Inv, Progress, SingleStep; SweepProgress(s);
    case Finalize => hide Inv;
  }

  lemma SweepRootDone(s: State)
    requires s.sweepgc >= |s.rootgc|
    ensures SweepRoot(s, GCSWEEPMAX) == s
  {
  }
}
