/** The sweep, and with it every step of the collector, keeps the invariant and everything live. */
module GcSweepKeeps {
  import opened Wrappers
  import opened GcHeap
  import opened GcMark
  import opened GcSweep
  import opened GcInvariant
  import opened GcClose

  /** What is live in s is still there in r and looks the same to the program, and nothing comes to life. */
  ghost predicate KeepsLive(s: State, r: State) {
    && Roots(r) == Roots(s) && r.mainthread == s.mainthread
    && (forall a :: a in r.heap ==> a in s.heap)
    && (forall a :: Live(s, a) ==>
          Live(r, a) && View(r.heap, a) == View(s.heap, a) && r.heap[a].fixed == s.heap[a].fixed)
    && (forall a :: Live(r, a) ==> Live(s, a))
  }

  lemma KeepsLiveTrans(s: State, t: State, r: State)
    requires KeepsLive(s, t) && KeepsLive(t, r)
    ensures KeepsLive(s, r)
  {
    hide View, Roots;
  }

  // ----- closing all upvalues from a level on

  lemma CloseOneKeepsLive(s: State, th: Addr, out: set<Addr>)
    requires Inv(s, out) && IsThread(s.heap, th) && s.heap[th].body.openupval != []
    requires forall a :: a in out ==> IsThread(s.heap, a)
    ensures OpenOn(s.heap, s.heap[th].body.openupval[0], th)
    ensures KeepsLive(s, CloseOne(s, th))
    ensures CloseOne(s, th).phase == s.phase && CloseOne(s, th).white == s.white
  {
    var uv, r := s.heap[th].body.openupval[0], CloseOne(s, th);
    UnlinkedLists(s, th, out);
    assert !s.heap[uv].fixed by { assert IsThread(s.heap, s.mainthread); }
    if s.phase != Propagate {
      CloseOneSame(s, th);
      hide CloseOne, Inv, Unlinked;
      CutKeepsLive(s, r, th, uv);
    } else {
      OutOfMarkPhase(s, out);
      var b := CloseOneMarking(s, th);
      hide CloseOne, Inv, Unlinked;
      CutMarkingKeepsLive(s, b, r, th, uv);
    }
  }

  lemma CutKeepsLive(s: State, r: State, th: Addr, uv: Addr)
    requires CutSame(s, r, th, uv) && !s.heap[uv].fixed
    ensures KeepsLive(s, r)
  {
    CutViews(s.heap, r.heap, th, uv);
    CutKeys(s.heap, r.heap, th, uv);
    hide View, Roots, CutFrom;
  }

  lemma CutMarkingKeepsLive(s: State, b: State, r: State, th: Addr, uv: Addr)
    requires CutMarking(s, b, th, uv) && Marked(b, r) && NoOtherWhite(s)
    ensures KeepsLive(s, r) && r.phase == s.phase && r.white == s.white
  {
    CutViews(s.heap, b.heap, th, uv);
    CutKeys(s.heap, b.heap, th, uv);
    SameViews(b.heap, r.heap);
    assert Roots(s) == Roots(r);
    hide View, Roots, CutFrom, Settled;
    assert NoOtherWhite(r) by { assert NoOtherWhite(b); }
    forall a ensures Live(s, a) <==> a in s.heap {}
    forall a ensures Live(r, a) <==> a in r.heap {}
    hide Live, NoOtherWhite;
  }

  /** luaF_close keeps the invariant and everything live, and leaves no open upvalue at or above the level. */
  lemma {:induction false} CloseKeeps(s: State, th: Addr, level: nat, out: set<Addr>)
    requires Inv(s, out) && IsThread(s.heap, th) && forall a :: a in out ==> IsThread(s.heap, a)
    ensures var r := Close(s, th, level);
      && Inv(r, out) && KeepsLive(s, r) && r.phase == s.phase && r.white == s.white
      && IsThread(r.heap, th) && r.heap[th].body == s.heap[th].body.(openupval := r.heap[th].body.openupval)
      && (forall a :: a in out ==> IsThread(r.heap, a))
      && OpenList(r.heap, th)
      && (s.phase != Propagate ==> r.heap[th].mark == s.heap[th].mark && r.heap[th].fixed == s.heap[th].fixed)
      && (r.heap[th].body.openupval == [] || Level(r.heap, r.heap[th].body.openupval[0]) < level)
    decreases |s.heap[th].body.openupval|
  {
    assert OpenList(s.heap, th);
    var l := s.heap[th].body.openupval;
    if l == [] || Level(s.heap, l[0]) < level {
      assert l != [] ==> l[0] in l;
      hide View;
      assert KeepsLive(s, s);
    } else {
      assert l[0] in l && OpenOn(s.heap, l[0], th);
      CloseOneThread(s, th);
      CloseOneKeeps(s, th, out);
      CloseOneKeepsLive(s, th, out);
      var t := CloseOne(s, th);
      if s.phase != Propagate { CloseOneThreadMark(s, th); }
      forall a | a in out ensures IsThread(t.heap, a) { StillThread(s, th, a, out); }
      hide Inv, CloseOne, KeepsLive;
      CloseKeeps(t, th, level, out);
      KeepsLiveTrans(s, t, Close(s, th, level));
    }
  }

  lemma CloseOneThreadMark(s: State, th: Addr)
    requires IsThread(s.heap, th) && s.heap[th].body.openupval != []
    requires OpenOn(s.heap, s.heap[th].body.openupval[0], th)
    requires s.phase != Propagate && Kinds(s)
    ensures var r := CloseOne(s, th);
      th in r.heap && r.heap[th].mark == s.heap[th].mark && r.heap[th].fixed == s.heap[th].fixed
  {
    CloseOneSame(s, th);
    hide CloseOne;
  }

  lemma StillThread(s: State, th: Addr, a: Addr, out: set<Addr>)
    requires Inv(s, out) && IsThread(s.heap, th) && s.heap[th].body.openupval != []
    requires OpenOn(s.heap, s.heap[th].body.openupval[0], th) && IsThread(s.heap, a)
    ensures IsThread(CloseOne(s, th).heap, a)
  {
    var uv := s.heap[th].body.openupval[0];
    hide CloseOne, Inv, Settled, Marked, Unlinked;
    CloseOneMarks(s, th);
    assert a != uv;
    UnlinkedThread(s, th, a);
  }

  lemma UnlinkedThread(s: State, th: Addr, a: Addr)
    requires IsThread(s.heap, th) && s.heap[th].body.openupval != []
    requires OpenOn(s.heap, s.heap[th].body.openupval[0], th) && IsThread(s.heap, a)
    ensures IsThread(Unlinked(s, th).heap, a)
  {
  }

  // ----- sweeping one list

  /** What sweeping does to the heap: dead objects may go, survivors may turn the current white, and
      survivors look the same. */
  ghost predicate SweptHeap(s: State, r: State) {
    && Roots(r) == Roots(s) && r.mainthread == s.mainthread && r.running == s.running
    && r.white == s.white && r.phase == s.phase
    && (forall a :: a in r.heap ==>
          && a in s.heap && View(r.heap, a) == View(s.heap, a) && r.heap[a].fixed == s.heap[a].fixed
          && (r.heap[a].mark == s.heap[a].mark || (!Dead(s, a) && CurrentWhite(r, a))))
    && (forall a :: a in s.heap && a !in r.heap ==> Dead(s, a))
  }

  lemma SweptLive(s: State, r: State)
    requires SweptHeap(s, r)
    ensures KeepsLive(s, r) && (LiveClosed(s) ==> LiveClosed(r))
  {
    hide View, Roots;
    forall a ensures Live(s, a) <==> Live(r, a) {}
    forall a | a in r.heap ensures Edges(r.heap, a) == Edges(s.heap, a) {}
    hide Edges;
  }

  lemma SweptKinds(s: State, r: State)
    requires SweptHeap(s, r) && Kinds(s)
    requires forall a :: a in r.heap ==> SameKind(s.heap[a].body, r.heap[a].body)
    ensures Kinds(r)
  {
    hide View, Roots;
  }

  predicate SameKind(b: Body, c: Body) {
    b == c || (b.Thread? && c.Thread? && c == b.(openupval := c.openupval))
  }

  lemma SweepListViews(s: State, l: seq<Addr>)
    requires forall a :: a in l ==> a in s.heap && !s.heap[a].body.Thread?
    ensures var h := SweepList(s, l);
      forall a :: a in h ==> a in s.heap && View(h, a) == View(s.heap, a)
  {
    var h := SweepList(s, l);
    forall th, level ensures Slot(s.heap, th, level) == Slot(h, th, level) {
      if IsThread(s.heap, th) { assert th !in l; }
    }
  }

  // ----- strings

  lemma BucketSwept(s: State, i: nat)
    requires StringTable(s) && i < |s.strt|
    ensures SweptHeap(s, SweepBucket(s, i))
    ensures var r := SweepBucket(s, i);
      && (forall a :: a in r.heap ==> a in s.heap && r.heap[a].body == s.heap[a].body)
      && (forall a :: a in s.heap && !s.heap[a].body.Str? ==> a in r.heap && r.heap[a] == s.heap[a])
      && (forall a :: a in r.heap && a in s.strt[i] ==> CurrentWhite(r, a))
      && (forall a :: a in s.heap && a !in s.strt[i] ==> a in r.heap && r.heap[a] == s.heap[a])
  {
    hide Bucket;
    SweepListViews(s, s.strt[i]);
    hide View, Roots;
  }

  lemma BucketStringTable(s: State, i: nat)
    requires StringTable(s) && i < |s.strt|
    ensures StringTable(SweepBucket(s, i))
  {
    var r := SweepBucket(s, i);
    BucketSwept(s, i);
    FilterMembers(s.strt[i], r.heap.Keys);
    FilterNoDup(s.strt[i], r.heap.Keys);
    hide SweptHeap, Bucket;
  }

  lemma SameOpenLists(h: Heap, k: Heap)
    requires OpenLists(h)
    requires forall a :: a in k ==> a in h && k[a].body == h[a].body
    requires forall a :: a in h && (h[a].body.Thread? || h[a].body.UpOpen?) ==> a in k
    ensures OpenLists(k)
  {
    forall th | IsThread(k, th) ensures OpenList(k, th) {
      assert OpenList(h, th);
      SameOpenSeq(h, k, h[th].body.openupval, th);
    }
  }

  lemma BucketLists(s: State, i: nat)
    requires Lists(s) && i < |s.strt|
    ensures Lists(SweepBucket(s, i))
  {
    var r := SweepBucket(s, i);
    BucketStringTable(s, i);
    BucketSwept(s, i);
    hide SweptHeap, SweepList;
    assert RootList(r, {}) by { hide OpenLists, StringTable; }
    assert Ring(r) by { hide OpenLists, StringTable; }
    hide RootList, StringTable, Ring;
    SameOpenLists(s.heap, r.heap);
  }

  /** One step of the string sweep. */
  lemma SweepStringKeeps(s: State)
    requires Inv(s) && s.phase == SweepString
    ensures s.sweepstr < |s.strt| && IsThread(s.heap, s.mainthread)
    ensures Inv(SingleStep(s)) && KeepsLive(s, SingleStep(s))
  {
    hide View, RootList, Ring, OpenLists, LiveClosed, Kinds, SweptHeap, SweepBucket, KeepsLive;
    var b, r := SweepBucket(s, s.sweepstr), SingleStep(s);
    BucketFields(s, s.sweepstr);
    BucketLists(s, s.sweepstr);
    BucketSwept(s, s.sweepstr);
    SweptLive(s, b);
    SweptKinds(s, b);
    assert r == b.(sweepstr := s.sweepstr + 1, phase := if s.sweepstr + 1 >= |b.strt| then Sweep else SweepString);
    SameLists(b, r);
    hide Lists, SingleStep;
    SweepStringColours(s, b, r);
    PhaseOnly(s, b, r);
    assert Cursors(r);
  }

  lemma BucketFields(s: State, i: nat)
    requires i < |s.strt|
    ensures var b := SweepBucket(s, i);
      |b.strt| == |s.strt| && b == s.(heap := b.heap, strt := b.strt)
  {
  }

  /** Liveness looks at the heap, the current white and the roots. */
  lemma PhaseOnly(s: State, b: State, r: State)
    requires KeepsLive(s, b) && LiveClosed(b) && Kinds(b)
    requires r.heap == b.heap && r.white == b.white && Roots(r) == Roots(b) && r.mainthread == b.mainthread
    ensures KeepsLive(s, r) && LiveClosed(r) && Kinds(r)
  {
    hide View, Roots;
    SameLiveClosed(b, r);
  }

  lemma SameLiveClosed(s: State, r: State)
    requires LiveClosed(s) && r.heap == s.heap && r.white == s.white && Roots(r) == Roots(s)
    ensures LiveClosed(r)
  {
    hide Edges, Roots;
    forall a ensures Live(s, a) <==> Live(r, a) {}
  }

  lemma SweepStringColours(s: State, b: State, r: State)
    requires StringTable(s) && Colours(s) && s.phase == SweepString
    requires |b.strt| == |s.strt| && b.white == s.white
    requires forall a :: a in b.heap ==> a in s.heap && b.heap[a].body == s.heap[a].body
    requires forall a :: a in b.heap && a in s.strt[s.sweepstr] ==> CurrentWhite(b, a)
    requires forall a :: a in s.heap && a !in s.strt[s.sweepstr] ==> a in b.heap && b.heap[a] == s.heap[a]
    requires r.heap == b.heap && r.white == b.white && r.strt == b.strt && r.sweepgc == 0 <= |r.rootgc|
    requires r.sweepstr == s.sweepstr + 1
    requires r.phase == if r.sweepstr >= |r.strt| then Sweep else SweepString
    ensures Colours(r)
  {
    forall a | a in r.heap && r.heap[a].body.Str? ensures Bucket(r.heap[a].body, |s.strt|) < |s.strt| {}
    hide Bucket;
  }

  // ----- the open upvalues of a thread

  /** What sweeping th's open upvalues does to the objects. */
  ghost predicate OpenSwept(h: Heap, k: Heap, th: Addr) {
    && IsThread(h, th) && IsThread(k, th) && th !in h[th].body.openupval
    && (forall a :: a in k ==> a in h && (a != th ==> k[a].body == h[a].body))
    && (forall a :: a in h && a !in h[th].body.openupval ==> a in k && k[a].mark == h[a].mark)
    && k[th].body == h[th].body.(openupval := Filter(h[th].body.openupval, k.Keys))
  }

  lemma OwnChain(s: State, th: Addr)
    requires OpenLists(s.heap) && IsThread(s.heap, th)
    ensures forall a :: a in s.heap[th].body.openupval ==> a in s.heap && s.heap[a].body.UpOpen?
    ensures th !in s.heap[th].body.openupval
  {
    assert OpenList(s.heap, th);
    forall a | a in s.heap[th].body.openupval ensures a in s.heap && s.heap[a].body.UpOpen? {
      assert OpenOn(s.heap, a, th);
    }
  }

  lemma SweepOpenSwept(s: State, th: Addr)
    requires OpenLists(s.heap) && IsThread(s.heap, th)
    ensures OpenSwept(s.heap, SweepOpen(s, th).heap, th)
  {
    OwnChain(s, th);
    hide OpenLists, Filter;
    var l := s.heap[th].body.openupval;
    assert th in SweepList(s, l);
    assert SweepList(s, l).Keys == SweepOpen(s, th).heap.Keys;
  }

  lemma SweepOpenViews(s: State, th: Addr)
    requires OpenLists(s.heap) && IsThread(s.heap, th)
    ensures var r := SweepOpen(s, th); forall a :: a in r.heap ==> a in s.heap && View(r.heap, a) == View(s.heap, a)
  {
    OwnChain(s, th);
    hide OpenLists, Filter;
    var h, r := SweepList(s, s.heap[th].body.openupval), SweepOpen(s, th);
    SweepListViews(s, s.heap[th].body.openupval);
    forall t, level ensures Slot(h, t, level) == Slot(r.heap, t, level) {}
    forall a | a in r.heap ensures View(r.heap, a) == View(h, a) {}
  }

  lemma SweepOpenHeap(s: State, th: Addr)
    requires OpenLists(s.heap) && IsThread(s.heap, th)
    ensures SweptHeap(s, SweepOpen(s, th))
  {
    OwnChain(s, th);
    SweepOpenViews(s, th);
    hide View, OpenLists, Filter;
    assert SweepList(s, s.heap[th].body.openupval).Keys == SweepOpen(s, th).heap.Keys;
  }

  lemma SweepOpenFacts(s: State, th: Addr)
    requires OpenLists(s.heap) && IsThread(s.heap, th)
    ensures var r := SweepOpen(s, th);
      && OpenSwept(s.heap, r.heap, th)
      && SweptHeap(s, r)
      && (forall a :: a in r.heap && a in s.heap[th].body.openupval ==> CurrentWhite(r, a))
      && r == s.(heap := r.heap, uvhead := Filter(s.uvhead, r.heap.Keys))
      && (forall a :: a in s.heap && a !in r.heap ==> s.heap[a].body.UpOpen?)
  {
    SweepOpenSwept(s, th);
    SweepOpenHeap(s, th);
    OwnChain(s, th);
    hide View, Roots, OpenLists, Filter, SweptHeap;
    assert SweepList(s, s.heap[th].body.openupval).Keys == SweepOpen(s, th).heap.Keys;
  }

  lemma {:induction false} FilterOpen(h: Heap, l: seq<Addr>, keep: set<Addr>, th: Addr)
    requires OpenSeq(h, l, th)
    ensures OpenSeq(h, Filter(l, keep), th)
  {
    if l != [] {
      var t := l[1..];
      assert l == [l[0]] + t;
      FilterOpen(h, t, keep, th);
      var f := Filter(t, keep);
      FilterMembers(t, keep);
      forall j | 0 <= j < |f| ensures Level(h, l[0]) > Level(h, f[j]) {
        assert f[j] in t;
        var i :| 0 <= i < |t| && t[i] == f[j];
        assert l[i+1] == f[j];
      }
    }
  }

  lemma NotAnUpvalue(h: Heap, th: Addr, t: Addr)
    requires OpenLists(h) && IsThread(h, th) && IsThread(h, t)
    ensures t !in h[th].body.openupval
  {
    assert OpenList(h, th);
  }

  lemma OpenSweptList(h: Heap, k: Heap, th: Addr, t: Addr)
    requires OpenLists(h) && OpenSwept(h, k, th) && IsThread(k, t)
    ensures OpenList(k, t)
  {
    assert OpenList(h, t) && OpenList(h, th);
    var l := h[t].body.openupval;
    if t == th {
      var f := k[th].body.openupval;
      FilterOpen(h, l, k.Keys, th);
      FilterMembers(l, k.Keys);
      hide Filter;
      forall a | a in f ensures OpenOn(k, a, th) && k[a].body == h[a].body { assert OpenOn(h, a, th); }
      SameOpenSeq(h, k, f, th);
    } else {
      hide Filter;
      forall a | a in l ensures OpenOn(k, a, t) && k[a].body == h[a].body {
        assert OpenOn(h, a, t);
        assert a !in h[th].body.openupval;
      }
      SameOpenSeq(h, k, l, t);
    }
  }

  lemma OpenSweptLists(h: Heap, k: Heap, th: Addr)
    requires OpenLists(h) && OpenSwept(h, k, th)
    ensures OpenLists(k)
  {
    forall t | IsThread(k, t) ensures OpenList(k, t) { OpenSweptList(h, k, th, t); }
    FilterMembers(h[th].body.openupval, k.Keys);
    hide OpenList, Filter;
    forall uv | uv in k && k[uv].body.UpOpen?
      ensures IsThread(k, k[uv].body.thread) && uv in k[k[uv].body.thread].body.openupval
    {
      assert uv in h && h[uv].body == k[uv].body;
      var t := h[uv].body.thread;
      assert IsThread(h, t) && OpenList(h, th);
      assert t !in h[th].body.openupval by { NotAnUpvalue(h, th, t); }
    }
  }

  lemma SweepOpenLists(s: State, th: Addr, out: set<Addr>)
    requires Lists(s, out) && IsThread(s.heap, th)
    ensures Lists(SweepOpen(s, th), out)
  {
    var r := SweepOpen(s, th);
    SweepOpenFacts(s, th);
    hide SweepOpen, SweptHeap, Filter, OpenLists;
    SweepOpenRing(s, r, th);
    OpenSweptLists(s.heap, r.heap, th);
    SweepOpenOthers(s, r, th, out);
  }

  lemma SweepOpenRing(s: State, r: State, th: Addr)
    requires Ring(s) && OpenSwept(s.heap, r.heap, th) && r.uvhead == Filter(s.uvhead, r.heap.Keys)
    ensures Ring(r)
  {
    FilterMembers(s.uvhead, r.heap.Keys);
    FilterNoDup(s.uvhead, r.heap.Keys);
    hide Filter;
  }

  lemma SweepOpenOthers(s: State, r: State, th: Addr, out: set<Addr>)
    requires RootList(s, out) && StringTable(s) && OpenSwept(s.heap, r.heap, th)
    requires forall a :: a in s.heap && a !in r.heap ==> s.heap[a].body.UpOpen?
    requires r.rootgc == s.rootgc && r.strt == s.strt
    ensures RootList(r, out) && StringTable(r)
  {
    hide Filter, Bucket;
    forall a ensures (a in s.heap && !s.heap[a].body.UpOpen?) <==> (a in r.heap && !r.heap[a].body.UpOpen?) {}
    forall a ensures (a in s.heap && s.heap[a].body.Str?) <==> (a in r.heap && r.heap[a].body.Str?) {}
  }

  lemma InvSweep(s: State, out: set<Addr>)
    requires Lists(s, out) && Kinds(s) && Cursors(s) && Colours(s) && LiveClosed(s) && s.phase == Sweep
    ensures Inv(s, out)
  {
  }

  lemma OutOfSweep(s: State, out: set<Addr>)
    requires Inv(s, out)
    ensures Lists(s, out) && Kinds(s) && Cursors(s) && Colours(s) && LiveClosed(s)
    ensures OpenLists(s.heap) && RootList(s, out)
  {
  }

  lemma OpenSweptKinds(h: Heap, k: Heap, th: Addr)
    requires OpenSwept(h, k, th)
    ensures forall a :: a in k ==> SameKind(h[a].body, k[a].body)
  {
    hide Filter;
  }

  lemma SweepOpenKeeps(s: State, th: Addr)
    requires Inv(s) && s.phase == Sweep && IsThread(s.heap, th)
    ensures var r := SweepOpen(s, th);
      && Inv(r) && KeepsLive(s, r) && r == s.(heap := r.heap, uvhead := r.uvhead)
      && IsThread(r.heap, th) && r.heap[th].mark == s.heap[th].mark && r.heap[th].fixed == s.heap[th].fixed
      && (forall uv :: uv in r.heap && r.heap[uv].body.UpOpen? && r.heap[uv].body.thread == th ==> CurrentWhite(r, uv))
  {
    hide Inv, KeepsLive, SweepOpen;
    OutOfSweep(s, {});
    hide Lists, LiveClosed, Kinds, Cursors, Filter, OpenLists, RootList, SweptHeap, Colours;
    var r := SweepOpen(s, th);
    SweepOpenLists(s, th, {});
    SweepOpenFacts(s, th);
    SweptLive(s, r);
    NotAnUpvalue(s.heap, th, th);
    OpenSweptKinds(s.heap, r.heap, th);
    SweptKinds(s, r);
    forall i | 0 <= i < s.sweepgc && i < |s.rootgc| ensures s.rootgc[i] in r.heap { RootSurvives(s, r, i); }
    SweepOpenColours(s, r, th);
    forall uv | uv in r.heap && r.heap[uv].body.UpOpen? && r.heap[uv].body.thread == th ensures CurrentWhite(r, uv) {
      OpenMember(s, uv);
    }
    SweptCursors(s, r);
    SweepOpenMark(s, r, th);
    InvSweep(r, {});
  }

  lemma RootSurvives(s: State, r: State, i: nat)
    requires RootList(s, {}) && i < |s.rootgc|
    requires forall a :: a in s.heap && a !in r.heap ==> s.heap[a].body.UpOpen?
    ensures s.rootgc[i] in r.heap
  {
    assert s.rootgc[i] in s.rootgc;
  }

  lemma SweepOpenMark(s: State, r: State, th: Addr)
    requires OpenSwept(s.heap, r.heap, th) && SweptHeap(s, r)
    ensures r.heap[th].mark == s.heap[th].mark && r.heap[th].fixed == s.heap[th].fixed
  {
    hide View, Roots, Filter;
  }

  lemma OpenMember(s: State, uv: Addr)
    requires Lists(s) && uv in s.heap && s.heap[uv].body.UpOpen?
    ensures IsThread(s.heap, s.heap[uv].body.thread) && uv in s.heap[s.heap[uv].body.thread].body.openupval
  {
  }

  lemma SweptCursors(s: State, r: State)
    requires Cursors(s) && LiveClosed(s) && SweptHeap(s, r) && r.rootgc == s.rootgc && r.sweepgc == s.sweepgc
    ensures Cursors(r)
  {
    assert s.mainthread in Roots(s) && s.running in Roots(s);
    assert Live(s, s.mainthread) && Live(s, s.running);
    hide LiveClosed;
    assert View(r.heap, s.mainthread).Thread? && View(r.heap, s.running).Thread?;
  }

  lemma SweepOpenColours(s: State, r: State, th: Addr)
    requires Colours(s) && s.phase == Sweep && SweptHeap(s, r) && OpenSwept(s.heap, r.heap, th)
    requires r.rootgc == s.rootgc && r.sweepgc == s.sweepgc
    requires forall i :: 0 <= i < s.sweepgc && i < |s.rootgc| ==> s.rootgc[i] in r.heap
    ensures Colours(r)
  {
    hide View, Roots, Filter;
    forall a | a in r.heap && CurrentWhite(s, a) ensures CurrentWhite(r, a) {}
  }

  // ----- one object of rootgc

  /** A survivor: it turns white and the cursor passes it. */
  lemma PassKeeps(s: State, curr: Addr)
    requires Inv(s) && s.phase == Sweep && s.sweepgc < |s.rootgc| && s.rootgc[s.sweepgc] == curr
    requires curr in s.heap && !Dead(s, curr)
    requires s.heap[curr].body.Thread? ==>
      forall uv :: uv in s.heap && s.heap[uv].body.UpOpen? && s.heap[uv].body.thread == curr ==> CurrentWhite(s, uv)
    ensures var r := s.(heap := SetMark(s.heap, curr, White(s.white)), sweepgc := s.sweepgc + 1);
      Inv(r) && KeepsLive(s, r)
  {
    hide Inv, KeepsLive;
    OutOfSweep(s, {});
    hide RootList, LiveClosed;
    var r := s.(heap := SetMark(s.heap, curr, White(s.white)), sweepgc := s.sweepgc + 1);
    SameLists(s, r);
    SameViews(s.heap, r.heap);
    assert SweptHeap(s, r) by { hide View, Colours, Lists, Cursors, Kinds; }
    assert Cursors(r);
    assert forall a :: a in r.heap ==> SameKind(s.heap[a].body, r.heap[a].body);
    hide Lists, Cursors, SweptHeap, Kinds, Colours;
    SweptLive(s, r);
    SweptKinds(s, r);
    PassColours(s, r, curr);
    InvSweep(r, {});
  }

  lemma PassColours(s: State, r: State, curr: Addr)
    requires Inv(s) && s.phase == Sweep && s.sweepgc < |s.rootgc| && s.rootgc[s.sweepgc] == curr && curr in s.heap
    requires s.heap[curr].body.Thread? ==>
      forall uv :: uv in s.heap && s.heap[uv].body.UpOpen? && s.heap[uv].body.thread == curr ==> CurrentWhite(s, uv)
    requires r == s.(heap := SetMark(s.heap, curr, White(s.white)), sweepgc := s.sweepgc + 1)
    ensures Colours(r)
  {
    hide Kinds, LiveClosed, RootList, StringTable, Ring, OpenList;
    assert forall a :: a in s.rootgc[..s.sweepgc + 1] ==> a in s.rootgc[..s.sweepgc] || a == curr;
    forall a | a in s.heap && CurrentWhite(s, a) ensures CurrentWhite(r, a) {}
    forall uv | uv in r.heap && r.heap[uv].body.UpOpen? ensures s.heap[uv].body == r.heap[uv].body {}
    forall uv | uv in r.heap && r.heap[uv].body.UpOpen? && r.heap[uv].body.thread == curr ensures CurrentWhite(r, uv) {
      assert s.heap[curr].body.Thread? by { hide *; OpenMemberThread(s, uv); }
    }
  }

  lemma OpenMemberThread(s: State, uv: Addr)
    requires Inv(s) && uv in s.heap && s.heap[uv].body.UpOpen?
    ensures IsThread(s.heap, s.heap[uv].body.thread)
  {
  }

  /** A dead object leaves rootgc ... */
  lemma UnchainKeeps(s: State, curr: Addr)
    requires Inv(s) && s.phase == Sweep && s.sweepgc < |s.rootgc| && s.rootgc[s.sweepgc] == curr
    ensures var r := s.(rootgc := s.rootgc[..s.sweepgc] + s.rootgc[s.sweepgc + 1..]);
      Inv(r, {curr}) && KeepsLive(s, r)
  {
    var r := s.(rootgc := s.rootgc[..s.sweepgc] + s.rootgc[s.sweepgc + 1..]);
    hide Inv, KeepsLive;
    OutOfSweep(s, {});
    UnchainList(s, r, curr);
    UnchainRest(s, r);
    hide RootList, Lists, LiveClosed, Kinds, Cursors, Colours, OpenLists;
    UnchainColours(s, r);
    SameLiveClosed(s, r);
    SameHeapKeeps(s, r);
    InvSweep(r, {curr});
  }

  lemma UnchainRest(s: State, r: State)
    requires Lists(s) && Kinds(s) && Cursors(s) && s.sweepgc < |s.rootgc|
    requires r == s.(rootgc := s.rootgc[..s.sweepgc] + s.rootgc[s.sweepgc + 1..])
    ensures StringTable(r) && Ring(r) && OpenLists(r.heap) && Kinds(r) && Cursors(r)
    ensures forall out :: RootList(r, out) ==> Lists(r, out)
  {
    hide RootList, OpenLists;
  }

  lemma UnchainColours(s: State, r: State)
    requires Colours(s) && s.phase == Sweep && s.sweepgc < |s.rootgc|
    requires r == s.(rootgc := s.rootgc[..s.sweepgc] + s.rootgc[s.sweepgc + 1..])
    ensures Colours(r)
  {
    assert r.rootgc[..r.sweepgc] == s.rootgc[..s.sweepgc];
    forall i | 0 <= i < r.sweepgc ensures r.rootgc[i] == s.rootgc[i] {}
  }

  lemma SameHeapKeeps(s: State, r: State)
    requires r.heap == s.heap && r.white == s.white && Roots(r) == Roots(s) && r.mainthread == s.mainthread
    ensures KeepsLive(s, r)
  {
    hide View, Roots;
  }

  lemma UnchainList(s: State, r: State, curr: Addr)
    requires RootList(s, {}) && s.sweepgc < |s.rootgc| && s.rootgc[s.sweepgc] == curr
    requires r == s.(rootgc := s.rootgc[..s.sweepgc] + s.rootgc[s.sweepgc + 1..])
    ensures RootList(r, {curr})
  {
    var i := s.sweepgc;
    assert s.rootgc == s.rootgc[..i] + [curr] + s.rootgc[i+1..];
    forall a ensures a in r.rootgc <==> a in s.rootgc && a != curr {
      if a in r.rootgc {
        var j :| 0 <= j < |r.rootgc| && r.rootgc[j] == a;
        assert a == if j < i then s.rootgc[j] else s.rootgc[j+1];
      }
    }
    forall j, k | 0 <= j < k < |r.rootgc| ensures r.rootgc[j] != r.rootgc[k] {
      assert r.rootgc[j] == s.rootgc[if j < i then j else j+1];
      assert r.rootgc[k] == s.rootgc[if k < i then k else k+1];
    }
  }

  /** ... and then the heap. */
  lemma FreeKeeps(s: State, curr: Addr)
    requires Inv(s, {curr}) && s.phase == Sweep && curr in s.heap && Dead(s, curr)
    requires !s.heap[curr].body.Str? && !s.heap[curr].body.UpOpen?
    requires s.heap[curr].body.Thread? ==> s.heap[curr].body.openupval == []
    ensures var r := s.(heap := s.heap - {curr}); Inv(r) && KeepsLive(s, r)
  {
    var r := s.(heap := s.heap - {curr});
    hide Inv;
    OutOfSweep(s, {curr});
    FreeViews(s, curr);
    assert SweptHeap(s, r) by { hide View, Colours, Lists, Cursors, Kinds, LiveClosed, RootList; }
    SweptLive(s, r);
    SweptKinds(s, r);
    FreeRoots(s, r, curr);
    FreeLists(s, r, curr);
    hide SweptHeap, LiveClosed, Lists, Kinds, KeepsLive, Cursors, OpenLists;
    assert Colours(r) by { FreeColours(s, r, curr); }
    InvSweep(r, {});
  }

  lemma FreeViews(s: State, curr: Addr)
    requires Inv(s, {curr}) && curr in s.heap && (s.heap[curr].body.Thread? ==> s.heap[curr].body.openupval == [])
    ensures forall a :: a in s.heap && a != curr ==> View(s.heap - {curr}, a) == View(s.heap, a)
  {
    var h := s.heap - {curr};
    forall th, level | th != curr ensures Slot(s.heap, th, level) == Slot(h, th, level) {}
    forall a | a in s.heap && a != curr ensures View(h, a) == View(s.heap, a) {
      if s.heap[a].body.UpOpen? { assert s.heap[a].body.thread != curr by { hide View; OpenNotOn(s, a, curr); } }
    }
  }

  lemma OpenNotOn(s: State, uv: Addr, curr: Addr)
    requires Inv(s, {curr}) && curr in s.heap && (s.heap[curr].body.Thread? ==> s.heap[curr].body.openupval == [])
    requires uv in s.heap && s.heap[uv].body.UpOpen?
    ensures s.heap[uv].body.thread != curr
  {
  }

  lemma FreeRoots(s: State, r: State, curr: Addr)
    requires Cursors(s) && LiveClosed(s) && Dead(s, curr) && r == s.(heap := s.heap - {curr})
    ensures Cursors(r)
  {
    assert s.mainthread in Roots(s) && s.running in Roots(s);
    assert Live(s, s.mainthread) && Live(s, s.running);
  }

  lemma FreeLists(s: State, r: State, curr: Addr)
    requires Lists(s, {curr}) && curr in s.heap && r == s.(heap := s.heap - {curr})
    requires !s.heap[curr].body.Str? && !s.heap[curr].body.UpOpen?
    requires s.heap[curr].body.Thread? ==> s.heap[curr].body.openupval == []
    ensures Lists(r)
  {
    assert RootList(r, {}) by { hide OpenLists, StringTable, Ring; }
    assert Ring(r) by { hide OpenLists, StringTable, RootList; }
    assert StringTable(r) by { hide OpenLists, Ring, RootList, Bucket; }
    assert OpenLists(r.heap) by { hide RootList, StringTable, Ring; FreeOpenLists(s.heap, curr); }
  }

  lemma FreeOpenLists(h: Heap, curr: Addr)
    requires OpenLists(h) && curr in h && !h[curr].body.UpOpen?
    requires h[curr].body.Thread? ==> h[curr].body.openupval == []
    ensures OpenLists(h - {curr})
  {
    var k := h - {curr};
    forall th | IsThread(k, th) ensures OpenList(k, th) {
      assert OpenList(h, th);
      forall a | a in h[th].body.openupval ensures OpenOn(k, a, th) { assert OpenOn(h, a, th); }
      SameOpenSeq(h, k, h[th].body.openupval, th);
    }
  }

  lemma FreeColours(s: State, r: State, curr: Addr)
    requires Colours(s) && s.phase == Sweep && r == s.(heap := s.heap - {curr}) && Dead(s, curr)
    ensures Colours(r)
  {
  }

  lemma EraseRootKeeps(s: State)
    requires Inv(s) && s.phase == Sweep && s.sweepgc < |s.rootgc| && Dead(s, s.rootgc[s.sweepgc])
    ensures var r := EraseRoot(s); Inv(r) && KeepsLive(s, r) && r.phase == Sweep && r.white == s.white
  {
    hide Inv, KeepsLive, Close;
    var curr := s.rootgc[s.sweepgc];
    RootMember(s);
    UnchainKeeps(s, curr);
    var s2 := s.(rootgc := s.rootgc[..s.sweepgc] + s.rootgc[s.sweepgc + 1..]);
    var s3 := Close(s2, curr, 0);
    if s.heap[curr].body.Thread? {
      CloseKeeps(s2, curr, 0, {curr});
    } else {
      NotThreadClose(s2, curr);
      SameHeapKeeps(s2, s2);
    }
    hide OpenList;
    KeepsLiveTrans(s, s2, s3);
    FreeKeeps(s3, curr);
    KeepsLiveTrans(s, s3, EraseRoot(s));
  }

  lemma OpenSweptFirst(s: State, curr: Addr)
    requires Inv(s) && s.phase == Sweep && curr in s.heap
    ensures var r := if s.heap[curr].body.Thread? then SweepOpen(s, curr) else s;
      && Inv(r) && KeepsLive(s, r) && r == s.(heap := r.heap, uvhead := r.uvhead)
      && curr in r.heap && (Dead(r, curr) <==> Dead(s, curr))
      && (r.heap[curr].body.Thread? ==>
            forall uv :: uv in r.heap && r.heap[uv].body.UpOpen? && r.heap[uv].body.thread == curr ==>
              CurrentWhite(r, uv))
  {
    hide Inv, KeepsLive, SweepOpen, Roots;
    if s.heap[curr].body.Thread? { SweepOpenKeeps(s, curr); } else { SameHeapKeeps(s, s); }
  }

  /** One turn of sweeplist on rootgc keeps the invariant and everything live. */
  lemma SweepRootOneKeeps(s: State)
    requires Inv(s) && s.phase == Sweep && s.sweepgc < |s.rootgc|
    ensures s.rootgc[s.sweepgc] in s.heap
    ensures var r := SweepRootOne(s); Inv(r) && KeepsLive(s, r) && r.phase == Sweep && r.white == s.white
  {
    RootMember(s);
    var curr := s.rootgc[s.sweepgc];
    hide Inv, KeepsLive, EraseRoot, PassRoot, SweepOpen;
    OpenSweptFirst(s, curr);
    var s1 := if s.heap[curr].body.Thread? then SweepOpen(s, curr) else s;
    var r := if Dead(s, curr) then EraseRoot(s1) else PassRoot(s1);
    assert SweepRootOne(s) == r;
    hide SweepRootOne;
    if Dead(s, curr) { EraseRootKeeps(s1); } else { PassKeeps(s1, curr); PassRootIs(s1); }
    KeepsLiveTrans(s, s1, r);
  }

  lemma PassRootIs(s: State)
    requires s.sweepgc < |s.rootgc| && s.rootgc[s.sweepgc] in s.heap
    ensures PassRoot(s) ==
      s.(heap := SetMark(s.heap, s.rootgc[s.sweepgc], White(s.white)), sweepgc := s.sweepgc + 1)
  {
  }

  lemma RootMember(s: State)
    requires Inv(s) && s.sweepgc < |s.rootgc|
    ensures var curr := s.rootgc[s.sweepgc];
      curr in s.heap && !s.heap[curr].body.Str? && !s.heap[curr].body.UpOpen?
  {
    assert s.rootgc[s.sweepgc] in s.rootgc;
  }

  lemma NotThreadClose(s: State, a: Addr)
    requires !IsThread(s.heap, a)
    ensures Close(s, a, 0) == s
  {
  }

  lemma {:induction false} SweepRootKeeps(s: State, count: nat)
    requires Inv(s) && s.phase == Sweep
    ensures var r := SweepRoot(s, count); Inv(r) && KeepsLive(s, r) && r.phase == Sweep && r.white == s.white
    decreases count
  {
    hide Inv, KeepsLive;
    if count == 0 || s.sweepgc >= |s.rootgc| {
      SameHeapKeeps(s, s);
    } else {
      SweepRootOneKeeps(s);
      hide SweepRootOne;
      SweepRootKeeps(SweepRootOne(s), count - 1);
      KeepsLiveTrans(s, SweepRootOne(s), SweepRoot(s, count));
    }
  }

  /** When the cursor reaches the end of rootgc, everything left is white. */
  lemma SweepEnd(s: State)
    requires Inv(s) && s.phase == Sweep && s.sweepgc == |s.rootgc|
    ensures Inv(s.(phase := Finalize)) && KeepsLive(s, s.(phase := Finalize))
  {
    var r := s.(phase := Finalize);
    hide Inv, KeepsLive;
    OutOfSweep(s, {});
    SameLists(s, r);
    hide OpenLists;
    SameHeapKeeps(s, r);
    SameLiveClosed(s, r);
    hide LiveClosed, Kinds;
    assert s.rootgc[..s.sweepgc] == s.rootgc;
    forall a | a in s.heap ensures CurrentWhite(s, a) {
      if s.heap[a].body.UpOpen? {
        OpenMember(s, a);
      } else if !s.heap[a].body.Str? {
        var i :| 0 <= i < |s.rootgc| && s.rootgc[i] == a;
      }
    }
    hide Lists;
    assert Colours(r);
    InvFinalize(r);
  }

  lemma InvFinalize(s: State)
    requires Lists(s) && Kinds(s) && Cursors(s) && Colours(s) && LiveClosed(s) && s.phase != Propagate
    ensures Inv(s)
  {
  }
}
