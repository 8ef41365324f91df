/** What every step of the collector and of the mutator keeps. */
module GcInvariant {
  import opened Wrappers
  import opened GcHeap
  import opened GcMark
  import opened GcSweep

  // ----- each object is on the list its kind belongs to

  /** rootgc holds each object that is neither a string nor an open upvalue, except those in out. */
  ghost predicate RootList(s: State, out: set<Addr>) {
    && NoDup(s.rootgc)
    && forall a :: a in s.rootgc <==>
         a in s.heap && !s.heap[a].body.Str? && !s.heap[a].body.UpOpen? && a !in out
  }

  /** The chain of the string table a string belongs to. */
  function Bucket(b: Body, size: nat): nat
    requires size > 0
  {
    if b.Str? then b.hash % size else 0
  }

  ghost predicate StringTable(s: State) {
    && |s.strt| > 0
    && (forall i :: 0 <= i < |s.strt| ==> NoDup(s.strt[i]))
    && forall i, a :: 0 <= i < |s.strt| ==>
         (a in s.strt[i] <==> a in s.heap && s.heap[a].body.Str? && Bucket(s.heap[a].body, |s.strt|) == i)
  }

  ghost predicate Ring(s: State) {
    && NoDup(s.uvhead)
    && forall a :: a in s.uvhead <==> a in s.heap && s.heap[a].body.UpOpen?
  }

  function Level(h: Heap, uv: Addr): nat {
    if uv in h && h[uv].body.UpOpen? then h[uv].body.level else 0
  }

  /** Open upvalues of one thread, strictly descending by level. */
  ghost predicate OpenSeq(h: Heap, l: seq<Addr>, th: Addr) {
    && (forall a :: a in l ==> OpenOn(h, a, th))
    && forall i, j :: 0 <= i < j < |l| ==> Level(h, l[i]) > Level(h, l[j])
  }

  ghost predicate OpenList(h: Heap, th: Addr)
    requires IsThread(h, th)
  {
    OpenSeq(h, h[th].body.openupval, th)
  }

  /** Open upvalues and their order depend on the bodies of the upvalues and of the thread's stack. */
  lemma SameOpenSeq(h: Heap, k: Heap, l: seq<Addr>, th: Addr)
    requires OpenSeq(h, l, th)
    requires forall a :: a in l ==> OpenOn(k, a, th) && k[a].body == h[a].body
    ensures OpenSeq(k, l, th)
  {
    forall i, j | 0 <= i < j < |l| ensures Level(k, l[i]) > Level(k, l[j]) {
      assert l[i] in l && l[j] in l;
      assert Level(h, l[i]) > Level(h, l[j]);
      assert Level(k, l[i]) == Level(h, l[i]);
    }
  }

  ghost predicate OpenLists(h: Heap) {
    && (forall th :: IsThread(h, th) ==> OpenList(h, th))
    && forall uv :: uv in h && h[uv].body.UpOpen? ==>
         IsThread(h, h[uv].body.thread) && uv in h[h[uv].body.thread].body.openupval
  }

  ghost predicate Lists(s: State, out: set<Addr> := {}) {
    RootList(s, out) && StringTable(s) && Ring(s) && OpenLists(s.heap)
  }

  // ----- colours

  /** Threads and open upvalues are never black, userdata and closed upvalues never gray; only
      strings and the main thread are fixed. */
  ghost predicate Kinds(s: State) {
    forall a :: a in s.heap ==>
      var o := s.heap[a];
      && (o.mark.Black? ==> !o.body.Thread? && !o.body.UpOpen? && !o.body.Str?)
      && (o.mark.Gray? ==> !o.body.Udata? && !o.body.UpClosed?)
      && (o.fixed ==> o.body.Str? || a == s.mainthread)
  }

  predicate CurrentWhite(s: State, a: Addr) {
    a in s.heap && s.heap[a].mark == White(s.white)
  }

  /** What the sweep has passed is white again; outside a sweep nothing has the other white; between
      collections everything is white. */
  ghost predicate Colours(s: State) {
    match s.phase
    case Pause => forall a :: a in s.heap ==> CurrentWhite(s, a)
    case Propagate => forall a :: a in s.heap ==> !OtherWhite(s, a)
    case SweepString =>
      && s.sweepstr < |s.strt| && s.sweepgc == 0
      && forall a :: a in s.heap && s.heap[a].body.Str? && Bucket(s.heap[a].body, |s.strt|) < s.sweepstr ==>
           CurrentWhite(s, a)
    case Sweep =>
      && s.sweepgc <= |s.rootgc|
      && (forall a :: a in s.heap && s.heap[a].body.Str? ==> CurrentWhite(s, a))
      && (forall i :: 0 <= i < s.sweepgc ==> CurrentWhite(s, s.rootgc[i]))
      && forall uv :: uv in s.heap && s.heap[uv].body.UpOpen? ==>
           (s.heap[uv].body.thread in s.rootgc[..s.sweepgc] ==> CurrentWhite(s, uv))
    case Finalize => forall a :: a in s.heap ==> CurrentWhite(s, a)
  }

  // ----- nothing live dangles

  predicate Live(s: State, a: Addr) { a in s.heap && !Dead(s, a) }

  ghost predicate LiveClosed(s: State) {
    && (forall r :: r in Roots(s) ==> Live(s, r))
    && forall a, c :: Live(s, a) && c in Edges(s.heap, a) ==> Live(s, c)
  }

  // ----- the tri-colour invariant

  ghost predicate GrayLists(s: State) {
    && NoDup(s.gray) && NoDup(s.grayagain)
    && (forall a :: a in s.gray ==> a !in s.grayagain)
    && forall a :: a in s.gray || a in s.grayagain ==>
         a in s.heap && s.heap[a].mark.Gray? && Listed(s.heap[a].body)
  }

  /** No black object refers to a white one. */
  ghost predicate BlackSettled(h: Heap) {
    forall a :: a in h && h[a].mark.Black? ==> Settled(h, a)
  }

  /** Every gray object that has to be traversed waits on a gray list. */
  ghost predicate GrayQueued(s: State) {
    forall a :: a in s.heap && s.heap[a].mark.Gray? && Listed(s.heap[a].body) ==>
      a in s.gray || a in s.grayagain
  }

  ghost predicate RootsMarked(s: State) {
    && !IsWhite(s.heap, s.mainthread)
    && (s.registry.Ref? ==> !IsWhite(s.heap, s.registry.addr))
  }

  ghost predicate TriColour(s: State) {
    GrayLists(s) && BlackSettled(s.heap) && GrayQueued(s) && RootsMarked(s)
  }

  ghost predicate Cursors(s: State) {
    && s.sweepgc <= |s.rootgc|
    && IsThread(s.heap, s.mainthread) && IsThread(s.heap, s.running)
  }

  /** The collector invariant. */
  ghost predicate Inv(s: State, out: set<Addr> := {}) {
    && Lists(s, out) && Kinds(s) && Cursors(s) && Colours(s) && LiveClosed(s)
    && (s.phase == Propagate ==> TriColour(s))
  }

  /** Everything the program can reach is in the heap, and the sweep will not free it. */
  lemma ReachableLive(s: State)
    requires Inv(s)
    ensures forall a :: Reachable(s, a) ==> Live(s, a)
  {
    var live := iset a | Live(s, a);
    assert ClosedUnder(s, live);
    ReachableInside(s, live);
  }

  /** Said of fields: the roots are live, and so is everything that a field of a reachable object holds. */
  ghost predicate NoDangling(s: State) {
    && (forall r :: IsRoot(s, r) ==> Live(s, r))
    && (forall a, c :: Reachable(s, a) && Mentions(s.heap, a, c) ==> Live(s, c))
  }

  lemma LiveFields(s: State)
    requires forall a :: Reachable(s, a) ==> Live(s, a)
    ensures NoDangling(s)
  {
    hide IsRoot, Mentions, Reachable, Live;
    ReachableMentions(s);
  }

  // ----- marking keeps the invariant

  lemma SameLists(s: State, r: State, out: set<Addr> := {})
    requires Lists(s, out) && SameBodies(s.heap, r.heap)
    requires r.rootgc == s.rootgc && r.strt == s.strt && r.uvhead == s.uvhead
    ensures Lists(r, out)
  {
    assert forall th :: IsThread(s.heap, th) == IsThread(r.heap, th);
    assert forall uv, th :: OpenOn(s.heap, uv, th) == OpenOn(r.heap, uv, th);
    forall th | IsThread(r.heap, th) ensures OpenList(r.heap, th) {
      assert OpenList(s.heap, th);
      SameOpenSeq(s.heap, r.heap, r.heap[th].body.openupval, th);
    }
  }

  lemma MarkedKinds(s: State, r: State)
    requires Kinds(s) && Marked(s, r)
    ensures Kinds(r)
  {
  }

  lemma MarkedTriColour(s: State, r: State)
    requires TriColour(s) && Marked(s, r)
    ensures TriColour(r)
  {
    SettledStays(s.heap, r.heap);
    MarkedGrayLists(s, r);
    var n := |r.gray| - |s.gray|;
    assert r.gray == r.gray[..n] + s.gray;
    assert BlackSettled(r.heap) by { hide Settled, Edges, GrayQueued, GrayLists; }
    assert GrayQueued(r) by { hide Settled, Edges, GrayLists; }
  }

  lemma MarkedGrayLists(s: State, r: State)
    requires GrayLists(s) && Marked(s, r)
    ensures GrayLists(r)
  {
    var n := |r.gray| - |s.gray|;
    assert r.gray == r.gray[..n] + s.gray;
    forall a | a in r.gray[..n] ensures a !in s.gray && a !in s.grayagain {
      assert Newly(s, r, a);
    }
    forall i, j | 0 <= i < j < |r.gray| ensures r.gray[i] != r.gray[j] {
      if i < n <= j { assert r.gray[i] in r.gray[..n] && r.gray[j] in s.gray; }
      else if j < n { assert r.gray[i] == r.gray[..n][i] && r.gray[j] == r.gray[..n][j]; }
      else { assert r.gray[i] == s.gray[i-n] && r.gray[j] == s.gray[j-n]; }
    }
  }

  ghost predicate NoOtherWhite(s: State) {
    forall a :: a in s.heap ==> !OtherWhite(s, a)
  }

  /** What holds throughout the mark phase and the atomic step. */
  ghost predicate MarkPhase(s: State) {
    Lists(s) && Kinds(s) && Cursors(s) && LiveClosed(s) && NoOtherWhite(s) && GrayLists(s)
  }

  lemma SameLive(s: State, r: State)
    requires LiveClosed(s) && SameBodies(s.heap, r.heap) && Roots(s) == Roots(r)
    requires NoOtherWhite(s) && NoOtherWhite(r)
    ensures LiveClosed(r)
  {
    SameEdges(s.heap, r.heap);
    hide Edges;
    forall a ensures Live(s, a) <==> Live(r, a) {}
  }

  lemma MarkedMarkPhase(s: State, r: State)
    requires MarkPhase(s) && Marked(s, r)
    ensures MarkPhase(r)
  {
    hide Lists, GrayLists, Kinds, LiveClosed, Edges, Settled, NoDup;
    SameLists(s, r);
    MarkedGrayLists(s, r);
    MarkedKinds(s, r);
    assert NoOtherWhite(r);
    SameLive(s, r);
  }

  lemma PoppedGrayLists(s: State)
    requires GrayLists(s) && s.gray != []
    ensures s.gray[0] in s.heap && GrayLists(Popped(s))
  {
    var r := Popped(s);
    assert s.gray[0] in s.gray && s.gray == [s.gray[0]] + r.gray;
  }

  /** Popping blackens one gray object: no object becomes or stops being white. */
  lemma PoppedFrame(s: State)
    requires s.gray != [] && s.gray[0] in s.heap && s.heap[s.gray[0]].mark.Gray?
    ensures var r := Popped(s);
      SameBodies(s.heap, r.heap)
      && (forall a :: IsWhite(s.heap, a) <==> IsWhite(r.heap, a))
      && (forall a :: OtherWhite(s, a) <==> OtherWhite(r, a))
      && (forall a :: Edges(s.heap, a) == Edges(r.heap, a))
      && (forall a :: Settled(s.heap, a) <==> Settled(r.heap, a))
  {
    var r := Popped(s);
    assert SameBodies(s.heap, r.heap);
    SameEdges(s.heap, r.heap);
    hide Edges;
  }

  lemma PoppedKinds(s: State)
    requires Kinds(s) && s.gray != [] && s.gray[0] in s.heap && Listed(s.heap[s.gray[0]].body)
    ensures Kinds(Popped(s))
  {
  }

  lemma PoppedMarkPhase(s: State)
    requires MarkPhase(s) && s.gray != []
    ensures s.gray[0] in s.heap && s.heap[s.gray[0]].mark.Gray? && Listed(s.heap[s.gray[0]].body)
    ensures MarkPhase(Popped(s))
  {
    hide Lists, Kinds, LiveClosed, Edges, Settled;
    assert s.gray[0] in s.gray;
    PoppedGrayLists(s);
    PoppedKinds(s);
    PoppedFrame(s);
    hide GrayLists;
    SameLists(s, Popped(s));
    SameLive(s, Popped(s));
  }

  lemma PropagateMarkKeeps(s: State)
    requires MarkPhase(s) && TriColour(s) && s.gray != []
    ensures s.gray[0] in s.heap
    ensures MarkPhase(PropagateMark(s)) && TriColour(PropagateMark(s))
  {
    hide MarkPhase, Edges, Settled, GrayLists, GrayQueued, BlackSettled, RootsMarked, Marked;
    PoppedMarkPhase(s);
    PoppedFrame(s);
    var p, r := Popped(s), PropagateMark(s);
    PropagateMarked(s);
    hide PropagateMark, Popped;
    MarkedMarkPhase(p, r);
    MarkPhaseGray(r);
    PropagateMarkColours(s, r);
  }

  lemma BlackAfter(s: State, p: State, r: State, o: Addr)
    requires BlackSettled(s.heap) && Marked(p, r) && Settled(r.heap, o) && s.heap.Keys == p.heap.Keys
    requires forall a :: a in p.heap && p.heap[a].mark.Black? ==> s.heap[a].mark.Black? || a == o
    requires forall a :: Settled(s.heap, a) ==> Settled(r.heap, a)
    ensures BlackSettled(r.heap)
  {
    hide Settled, Edges;
  }

  lemma QueuedAfter(s: State, p: State, r: State, o: Addr)
    requires GrayQueued(s) && Marked(p, r) && s.heap.Keys == p.heap.Keys
    requires forall a :: a in p.heap ==> p.heap[a].body == s.heap[a].body
    requires forall a :: a in p.heap && p.heap[a].mark.Gray? ==> s.heap[a].mark.Gray? && (a != o || a in p.grayagain)
    requires (forall a :: a in s.gray ==> a == o || a in p.gray) && forall a :: a in s.grayagain ==> a in p.grayagain
    ensures GrayQueued(r)
  {
    MarkedGray(p, r);
    hide Settled, Edges;
  }

  lemma PoppedShape(s: State)
    requires s.gray != [] && s.gray[0] in s.heap && s.heap[s.gray[0]].mark.Gray?
    ensures var o, p := s.gray[0], Popped(s);
      && (forall a :: a in p.heap && p.heap[a].mark.Black? ==> s.heap[a].mark.Black? || a == o)
      && (forall a :: a in p.heap ==> p.heap[a].body == s.heap[a].body)
      && (forall a :: a in p.heap && p.heap[a].mark.Gray? ==> s.heap[a].mark.Gray? && (a != o || a in p.grayagain))
      && (forall a :: a in s.gray ==> a == o || a in p.gray)
      && (forall a :: a in s.grayagain ==> a in p.grayagain)
      && p.mainthread == s.mainthread && p.registry == s.registry
  {
    assert s.gray == [s.gray[0]] + s.gray[1..];
  }

  lemma PropagateMarkColours(s: State, r: State)
    requires TriColour(s) && s.gray != [] && s.gray[0] in s.heap && s.heap[s.gray[0]].mark.Gray?
    requires r == PropagateMark(s)
    ensures BlackSettled(r.heap) && GrayQueued(r) && RootsMarked(r)
  {
    hide Edges, Settled, GrayLists, GrayQueued, BlackSettled, Popped;
    var o, p := s.gray[0], Popped(s);
    PoppedFrame(s);
    PoppedShape(s);
    PropagateMarked(s);
    hide PropagateMark;
    assert MarksOnly(p.heap, r.heap) && r.mainthread == p.mainthread && r.registry == p.registry;
    SettledStays(p.heap, r.heap);
    assert RootsMarked(r);
    hide Marked, MarksOnly;
    BlackAfter(s, p, r, o);
    QueuedAfter(s, p, r, o);
  }

  lemma MarkPhaseGray(s: State)
    requires MarkPhase(s)
    ensures GrayLists(s)
  {
  }

  // ----- the atomic step

  /** Open upvalues that are marked have their values marked. */
  ghost predicate UpvaluesDone(h: Heap) {
    forall a :: a in h && h[a].body.UpOpen? && !h[a].mark.White? ==> Settled(h, a)
  }

  /** Marked threads are either waiting to be traversed or have been. */
  ghost predicate ThreadsDone(s: State) {
    forall a :: a in s.heap && s.heap[a].body.Thread? && !s.heap[a].mark.White? && a !in s.gray ==>
      Settled(s.heap, a)
  }

  lemma MarkedUpvaluesDone(s: State, r: State)
    requires UpvaluesDone(s.heap) && Marked(s, r)
    ensures UpvaluesDone(r.heap)
  {
    SettledStays(s.heap, r.heap);
  }

  lemma PropagateMarkUpvalues(s: State)
    requires MarkPhase(s) && s.gray != [] && s.gray[0] in s.heap
    requires UpvaluesDone(s.heap)
    ensures UpvaluesDone(PropagateMark(s).heap)
  {
    hide MarkPhase, Edges, Settled;
    PoppedMarkPhase(s);
    PoppedFrame(s);
    PropagateMarked(s);
    hide PropagateMark;
    assert UpvaluesDone(Popped(s).heap);
    MarkedUpvaluesDone(Popped(s), PropagateMark(s));
  }

  lemma ThreadsAfter(s: State, p: State, r: State, o: Addr)
    requires ThreadsDone(s) && Marked(p, r) && Settled(r.heap, o) && s.heap.Keys == p.heap.Keys
    requires forall a :: a in p.heap ==> p.heap[a].body == s.heap[a].body
    requires forall a :: IsWhite(s.heap, a) <==> IsWhite(p.heap, a)
    requires forall a :: a in s.gray ==> a == o || a in p.gray
    requires forall a :: Settled(s.heap, a) ==> Settled(r.heap, a)
    ensures ThreadsDone(r)
  {
    MarkedGray(p, r);
    hide Settled, Edges;
  }

  lemma PropagateMarkThreads(s: State)
    requires MarkPhase(s) && s.gray != [] && s.gray[0] in s.heap
    requires ThreadsDone(s)
    ensures ThreadsDone(PropagateMark(s))
  {
    hide MarkPhase, Edges, Settled, ThreadsDone, Popped;
    var o, p, r := s.gray[0], Popped(s), PropagateMark(s);
    PoppedMarkPhase(s);
    PoppedFrame(s);
    PoppedShape(s);
    PropagateMarked(s);
    hide PropagateMark;
    assert MarksOnly(p.heap, r.heap);
    SettledStays(p.heap, r.heap);
    hide Marked, MarksOnly;
    ThreadsAfter(s, p, r, o);
  }

  lemma {:induction false} PropagateAllKeeps(s: State)
    requires MarkPhase(s) && TriColour(s) && Queued(s) && UpvaluesDone(s.heap)
    ensures var r := PropagateAll(s);
      MarkPhase(r) && TriColour(r) && UpvaluesDone(r.heap) && (ThreadsDone(s) ==> ThreadsDone(r))
    decreases Whites(s.heap), |s.gray|
  {
    hide MarkPhase, TriColour, UpvaluesDone, ThreadsDone;
    if s.gray != [] {
      PropagateMarkKeeps(s);
      PropagateMarkUpvalues(s);
      if ThreadsDone(s) { PropagateMarkThreads(s); }
      PropagateQueued(s);
      hide Queued, PropagateMark;
      PropagateAllKeeps(PropagateMark(s));
    }
  }

  lemma {:induction false} RemarkUpvalsMarks(s: State, ring: seq<Addr>)
    ensures Marked(s, RemarkUpvals(s, ring))
    ensures forall uv :: uv in ring && uv in s.heap && s.heap[uv].mark.Gray? ==>
              Settled(RemarkUpvals(s, ring).heap, uv)
    decreases |ring|
  {
    MarkedRefl(s);
    if ring != [] {
      var uv, r := ring[0], RemarkUpvals(s, ring);
      hide Marked, Settled, MarkAll, Edges;
      var s1 := if uv in s.heap && s.heap[uv].mark.Gray? then MarkAll(s, Edges(s.heap, uv)) else s;
      MarkAllMarks(s, Edges(s.heap, uv));
      RemarkUpvalsMarks(s1, ring[1..]);
      hide RemarkUpvals;
      MarkedTrans(s, s1, r);
      RemarkedFirst(s, s1, r, uv);
      assert ring == [ring[0]] + ring[1..];
    }
  }

  /** The upvalue just visited stays settled, and a gray one stays gray. */
  lemma RemarkedFirst(s: State, s1: State, r: State, uv: Addr)
    requires Marked(s, s1) && Marked(s1, r)
    requires uv in s.heap && s.heap[uv].mark.Gray? ==> forall a :: a in Edges(s.heap, uv) ==> !IsWhite(s1.heap, a)
    ensures uv in s.heap && s.heap[uv].mark.Gray? ==> Settled(r.heap, uv)
    ensures forall u :: u in s.heap && s.heap[u].mark.Gray? ==> u in s1.heap && s1.heap[u].mark.Gray?
  {
    SameEdges(s.heap, s1.heap);
    SettledStays(s1.heap, r.heap);
    hide Edges;
  }

  lemma RemarkedUpvalues(s: State)
    requires MarkPhase(s)
    ensures UpvaluesDone(RemarkUpvals(s, s.uvhead).heap)
  {
    var r := RemarkUpvals(s, s.uvhead);
    RemarkUpvalsMarks(s, s.uvhead);
    hide Edges, Settled, RemarkUpvals, LiveClosed, GrayLists;
    forall a | a in r.heap && r.heap[a].body.UpOpen? && !r.heap[a].mark.White? ensures Settled(r.heap, a) {
      assert a in s.uvhead;
    }
  }

  ghost predicate MarkedSet(s: State) {
    MarkPhase(s) && TriColour(s) && Queued(s) && UpvaluesDone(s.heap)
  }

  lemma MarkedMarkedSet(s: State, r: State)
    requires MarkedSet(s) && Marked(s, r) && Queued(r)
    ensures MarkedSet(r)
  {
    hide MarkPhase, TriColour, Queued, UpvaluesDone, Marked;
    MarkedMarkPhase(s, r);
    MarkedTriColour(s, r);
    MarkedUpvaluesDone(s, r);
  }

  /** r differs from s in marks and gray lists only, and nothing loses its mark. */
  ghost predicate Grown(s: State, r: State) {
    && r == s.(heap := r.heap, gray := r.gray, grayagain := r.grayagain)
    && SameBodies(s.heap, r.heap)
    && forall a :: a in s.heap && !s.heap[a].mark.White? ==> !r.heap[a].mark.White?
  }

  lemma MarkedGrown(s: State, r: State)
    requires Marked(s, r)
    ensures Grown(s, r)
  {
  }

  lemma GrownTrans(s: State, t: State, r: State)
    requires Grown(s, t) && Grown(t, r)
    ensures Grown(s, r)
  {
  }

  lemma AtomicFirstHalf(s: State)
    requires MarkPhase(s) && TriColour(s) && Queued(s)
    ensures var s1 := RemarkUpvals(s, s.uvhead);
      Queued(s1) && MarkedSet(PropagateAll(s1)) && Grown(s, PropagateAll(s1))
  {
    hide MarkPhase, TriColour, Queued, UpvaluesDone, RemarkUpvals, Edges, Settled;
    var s1 := RemarkUpvals(s, s.uvhead);
    RemarkUpvalsMarks(s, s.uvhead);
    RemarkQueued(s, s.uvhead);
    RemarkedUpvalues(s);
    MarkedMarkPhase(s, s1);
    MarkedTriColour(s, s1);
    MarkedGrown(s, s1);
    hide Marked;
    PropagateAllKeeps(s1);
    PropagateAllFrame(s1);
    GrownTrans(s, s1, PropagateAll(s1));
  }

  lemma GrayAgain(s: State)
    requires MarkedSet(s) && s.gray == []
    ensures var r := s.(gray := s.grayagain, grayagain := []); MarkedSet(r) && ThreadsDone(r)
  {
    var r := s.(gray := s.grayagain, grayagain := []);
    SameLists(s, r);
    hide Lists, Edges, Settled;
    assert NoOtherWhite(r);
    SameLive(s, r);
    assert GrayLists(r);
  }

  /** What the marking part of atomic establishes. */
  lemma AtomicMarks(s: State)
    requires MarkPhase(s) && TriColour(s) && Queued(s)
    ensures var r := AtomicMark(s);
      MarkedSet(r) && r.gray == [] && ThreadsDone(r) && Grown(s, r)
      && (forall a :: a in [s.running] + OptRefs(s.mt) ==> !IsWhite(r.heap, a))
  {
    var s1 := RemarkUpvals(s, s.uvhead);
    AtomicFirstHalf(s);
    var s2 := PropagateAll(s1);
    var l := [s.running] + OptRefs(s.mt);
    hide MarkPhase, TriColour, Queued, UpvaluesDone, RemarkUpvals, Edges, Settled, MarkedSet, ThreadsDone;
    var s3 := MarkAll(s2, l);
    MarkAllMarks(s2, l);
    assert Queued(s2) by { MarkedSetParts(s2); }
    MarkAllQueued(s2, l);
    MarkedMarkedSet(s2, s3);
    MarkedGrown(s2, s3);
    GrownTrans(s, s2, s3);
    hide Marked, MarkAll;
    var s4 := PropagateAll(s3);
    MarkedSetParts(s3);
    PropagateAllKeeps(s3);
    PropagateAllFrame(s3);
    GrownTrans(s, s3, s4);
    MarkedSetWhole(s4);
    var s5 := s4.(gray := s4.grayagain, grayagain := []);
    GrayAgain(s4);
    MarkedSetParts(s5);
    GrownAgain(s, s4, s5);
    PropagateAllKeeps(s5);
    PropagateAllFrame(s5);
    MarkedSetWhole(PropagateAll(s5));
    GrownTrans(s, s5, PropagateAll(s5));
    GrownMarks(s3, s4, s5, PropagateAll(s5), l);
  }

  lemma GrownAgain(s: State, s4: State, s5: State)
    requires Grown(s, s4) && s5 == s4.(gray := s4.grayagain, grayagain := [])
    ensures Grown(s, s5)
  {
  }

  lemma GrownMarks(s3: State, s4: State, s5: State, r: State, l: seq<Addr>)
    requires Grown(s3, s4) && s5.heap == s4.heap && Grown(s5, r)
    requires forall a :: a in l ==> !IsWhite(s3.heap, a)
    ensures forall a :: a in l ==> !IsWhite(r.heap, a)
  {
  }

  lemma MarkedSetParts(s: State)
    requires MarkedSet(s)
    ensures MarkPhase(s) && TriColour(s) && Queued(s) && UpvaluesDone(s.heap)
  {
  }

  lemma MarkedSetWhole(s: State)
    requires MarkPhase(s) && TriColour(s) && Queued(s) && UpvaluesDone(s.heap)
    ensures MarkedSet(s)
  {
  }

  /** propagateall leaves everything but marks and gray lists alone. */
  lemma {:induction false} PropagateAllFrame(s: State)
    requires Queued(s)
    ensures Grown(s, PropagateAll(s))
    decreases Whites(s.heap), |s.gray|
  {
    if s.gray != [] {
      PropagateGrown(s);
      PropagateQueued(s);
      hide PropagateMark, Grown;
      PropagateAllFrame(PropagateMark(s));
      GrownTrans(s, PropagateMark(s), PropagateAll(s));
    } else {
      MarkedRefl(s);
    }
  }

  lemma PropagateGrown(s: State)
    requires s.gray != [] && s.gray[0] in s.heap
    ensures Grown(s, PropagateMark(s))
  {
    PropagateMarked(s);
    hide PropagateMark, Edges, Settled;
  }

  /** After the last traversal every marked object refers only to marked ones. */
  lemma AllSettled(s: State)
    requires MarkedSet(s) && ThreadsDone(s) && s.gray == []
    requires AgainThreads(s)
    ensures forall a :: a in s.heap && !s.heap[a].mark.White? ==> Settled(s.heap, a)
  {
  }

  ghost predicate AgainThreads(s: State) {
    forall a :: a in s.grayagain ==> a in s.heap && s.heap[a].body.Thread?
  }

  lemma PropagateMarkAgain(s: State)
    requires s.gray != [] && s.gray[0] in s.heap && AgainThreads(s)
    ensures AgainThreads(PropagateMark(s))
  {
    PropagateMarked(s);
    hide PropagateMark, Edges, Settled;
  }

  lemma {:induction false} PropagateAllAgain(s: State)
    requires Queued(s) && AgainThreads(s)
    ensures AgainThreads(PropagateAll(s))
    decreases Whites(s.heap), |s.gray|
  {
    if s.gray != [] {
      PropagateMarkAgain(s);
      PropagateQueued(s);
      hide PropagateMark, Edges, AgainThreads;
      PropagateAllAgain(PropagateMark(s));
    }
  }

  lemma AtomicAllSettled(s: State)
    requires MarkPhase(s) && TriColour(s) && Queued(s)
    ensures forall a :: a in AtomicMark(s).heap && !AtomicMark(s).heap[a].mark.White? ==>
              Settled(AtomicMark(s).heap, a)
  {
    AtomicMarks(s);
    AtomicFirstHalf(s);
    hide MarkPhase, TriColour, RemarkUpvals, Edges, Settled, MarkedSet, ThreadsDone, PropagateAll, MarkAll, Grown,
         AgainThreads;
    assert AgainThreads(AtomicMark(s)) by { AtomicAgain(s); }
    AllSettled(AtomicMark(s));
  }

  /** After the second propagation only threads are to be traversed again. */
  lemma AtomicAgain(s: State)
    requires Queued(s)
    ensures AgainThreads(AtomicMark(s))
  {
    hide AgainThreads, MarkAll, RemarkUpvals, PropagateAll, Edges;
    RemarkQueued(s, s.uvhead);
    var s2 := PropagateAll(RemarkUpvals(s, s.uvhead));
    var l := [s.running] + OptRefs(s.mt);
    MarkAllQueued(s2, l);
    var s4 := PropagateAll(MarkAll(s2, l));
    var s5 := s4.(gray := s4.grayagain, grayagain := []);
    QueuedAgain(s4);
    NoneAgain(s5);
    PropagateAllAgain(s5);
  }

  lemma NoneAgain(s: State)
    requires s.grayagain == []
    ensures AgainThreads(s)
  {
  }

  lemma QueuedAgain(s: State)
    requires Queued(s)
    ensures Queued(s.(gray := s.grayagain, grayagain := []))
  {
  }

  lemma FlipLive(s: State)
    requires Kinds(s) && NoOtherWhite(s) && LiveClosed(s)
    requires forall a :: a in s.heap && !s.heap[a].mark.White? ==> Settled(s.heap, a)
    requires forall r :: r in Roots(s) ==> !IsWhite(s.heap, r)
    ensures LiveClosed(Flip(s))
  {
    var t := Flip(s);
    assert Roots(t) == Roots(s);
    assert s.mainthread in Roots(s);
    forall a, c | Live(t, a) && c in Edges(t.heap, a) ensures Live(t, c) {
      assert Live(s, a) && Live(s, c);
      if !s.heap[a].mark.White? { assert Settled(s.heap, a); }
    }
  }

  lemma FlipLists(s: State)
    requires MarkPhase(s)
    ensures Lists(Flip(s)) && Kinds(Flip(s)) && Cursors(Flip(s)) && Colours(Flip(s))
  {
    SameLists(s, Flip(s));
  }

  lemma RootsMarkedAll(s: State)
    requires RootsMarked(s)
    requires forall a :: a in [s.running] + OptRefs(s.mt) ==> !IsWhite(s.heap, a)
    ensures forall r :: r in Roots(s) ==> !IsWhite(s.heap, r)
  {
    assert Roots(s) == [s.mainthread] + ValueRef(s.registry) + ([s.running] + OptRefs(s.mt))
        || forall r :: r in Roots(s) ==>
           r == s.mainthread || r in ValueRef(s.registry) || r in [s.running] + OptRefs(s.mt);
  }

  lemma PropagateMarkPhase(s: State)
    requires Inv(s) && s.phase == Propagate
    ensures MarkPhase(s) && TriColour(s) && Queued(s)
  {
    hide Lists, Kinds, LiveClosed, BlackSettled, GrayQueued;
  }

  lemma AtomicKeeps(s: State)
    requires Inv(s) && s.phase == Propagate
    ensures Queued(s) && Inv(Atomic(s))
  {
    PropagateMarkPhase(s);
    var r := AtomicMark(s);
    AtomicMarks(s);
    AtomicAllSettled(s);
    hide AtomicMark, Lists, Kinds, Cursors, Colours, LiveClosed, NoOtherWhite, GrayLists, Edges, Settled;
    assert RootsMarked(r);
    assert r.running == s.running && r.mt == s.mt;
    RootsMarkedAll(r);
    FlipLive(r);
    FlipLists(r);
  }

  lemma MarkedFromWhite(s: State, r: State)
    requires Marked(s, r) && s.gray == [] && forall a :: a in s.heap ==> s.heap[a].mark.White?
    ensures BlackSettled(r.heap) && GrayQueued(r)
  {
    MarkedGray(s, r);
    hide Settled, Edges;
  }

  lemma MarkRootKeeps(s: State)
    requires Inv(s) && (s.phase == Pause || s.phase == Finalize)
    ensures Inv(MarkRoot(s))
  {
    var s1 := s.(gray := [], grayagain := []);
    var l := [s.mainthread] + ValueRef(s.heap[s.mainthread].body.gt) + ValueRef(s.registry) + OptRefs(s.mt);
    assert s.mainthread in l && (s.registry.Ref? ==> s.registry.addr in l);
    hide Lists, Kinds, LiveClosed, Edges, Settled;
    var r := MarkAll(s1, l);
    assert MarkRoot(s) == r.(phase := Propagate);
    AllWhiteStart(s);
    MarkAllMarks(s1, l);
    hide MarkAll, MarkPhase, MarkRoot, Inv, Colours;
    MarkedMarkPhase(s1, r);
    MarkedFromWhite(s1, r);
    assert RootsMarked(r);
    EnterPropagate(r);
  }

  lemma AllWhiteStart(s: State)
    requires Inv(s) && (s.phase == Pause || s.phase == Finalize)
    ensures MarkPhase(s.(gray := [], grayagain := []))
    ensures forall a :: a in s.heap ==> s.heap[a].mark.White?
  {
    var s1 := s.(gray := [], grayagain := []);
    SameLists(s, s1);
    hide Lists, Edges;
    assert NoOtherWhite(s) && NoOtherWhite(s1);
    SameLive(s, s1);
  }

  lemma EnterPropagate(s: State)
    requires MarkPhase(s) && BlackSettled(s.heap) && GrayQueued(s) && RootsMarked(s)
    ensures Inv(s.(phase := Propagate))
  {
    var t := s.(phase := Propagate);
    SameLists(s, t);
    hide Lists, Edges, Settled;
    assert NoOtherWhite(t);
    SameLive(s, t);
  }
}
