/** Closing an upvalue keeps the collector invariant, in every phase. */
module GcClose {
  import opened Wrappers
  import opened GcHeap
  import opened GcMark
  import opened GcSweep
  import opened GcInvariant

  /** k is h with the topmost open upvalue of th freed or closed. */
  ghost predicate CutFrom(h: Heap, k: Heap, th: Addr, uv: Addr) {
    && IsThread(h, th) && h[th].body.openupval != [] && h[th].body.openupval[0] == uv
    && OpenOn(h, uv, th)
    && IsThread(k, th) && k[th].body == h[th].body.(openupval := h[th].body.openupval[1..])
    && (forall a :: a != uv ==> (a in k <==> a in h))
    && (forall a :: a in k && a != th && a != uv ==> k[a].body == h[a].body)
    && (uv in k ==> k[uv].body == UpClosed(h[th].body.stack[h[uv].body.level]))
  }

  /** The other members of the list are not uv: their levels are lower. */
  lemma CutTail(h: Heap, k: Heap, th: Addr, uv: Addr)
    requires OpenLists(h) && CutFrom(h, k, th, uv)
    ensures OpenList(k, th) && uv !in k[th].body.openupval
  {
    var l := h[th].body.openupval;
    var lt := k[th].body.openupval;
    assert OpenList(h, th) && l == [uv] + lt;
    forall a | a in lt ensures a in l && a != uv && a != th {
      var i :| 0 <= i < |lt| && lt[i] == a;
      assert l[i+1] == a && Level(h, l[0]) > Level(h, l[i+1]);
      assert OpenOn(h, a, th);
    }
    assert OpenSeq(h, lt, th) by {
      forall i, j | 0 <= i < j < |lt| ensures Level(h, lt[i]) > Level(h, lt[j]) {
        assert l[i+1] == lt[i] && l[j+1] == lt[j];
      }
    }
    SameOpenSeq(h, k, lt, th);
  }

  lemma CutOther(h: Heap, k: Heap, th: Addr, uv: Addr, t: Addr)
    requires OpenLists(h) && CutFrom(h, k, th, uv) && IsThread(k, t) && t != th
    ensures OpenList(k, t)
  {
    assert IsThread(h, t) && OpenList(h, t) && k[t].body == h[t].body;
    SameOpenSeq(h, k, k[t].body.openupval, t);
  }

  lemma CutOpenLists(h: Heap, k: Heap, th: Addr, uv: Addr)
    requires OpenLists(h) && CutFrom(h, k, th, uv)
    ensures OpenLists(k)
  {
    CutTail(h, k, th, uv);
    assert h[th].body.openupval == [uv] + k[th].body.openupval;
    forall t | IsThread(k, t) ensures OpenList(k, t) {
      if t != th { CutOther(h, k, th, uv, t); }
    }
    hide OpenList;
    forall a | a in k && k[a].body.UpOpen?
      ensures IsThread(k, k[a].body.thread) && a in k[k[a].body.thread].body.openupval
    {
      assert a in h && h[a].body == k[a].body && IsThread(h, h[a].body.thread);
    }
  }

  lemma CutViews(h: Heap, k: Heap, th: Addr, uv: Addr)
    requires CutFrom(h, k, th, uv)
    ensures forall a :: a in k ==> a in h && View(k, a) == View(h, a)
  {
    forall t, level ensures Slot(h, t, level) == Slot(k, t, level) {
      if t != th && t != uv && t in k { assert k[t].body == h[t].body; }
    }
    forall a | a in k ensures a in h && View(k, a) == View(h, a) {
      if a != th && a != uv { assert k[a].body == h[a].body; }
    }
  }

  lemma CutEdges(h: Heap, k: Heap, th: Addr, uv: Addr)
    requires CutFrom(h, k, th, uv)
    ensures forall a :: a in k ==> Edges(k, a) == Edges(h, a)
  {
    CutViews(h, k, th, uv);
    hide View;
  }

  // ----- the lists

  lemma CutRing(s: State, th: Addr, k: Heap)
    requires Ring(s) && IsThread(s.heap, th) && s.heap[th].body.openupval != []
    requires CutFrom(s.heap, k, th, s.heap[th].body.openupval[0])
    ensures Ring(CutOne(s, th).(heap := k))
  {
    var uv := s.heap[th].body.openupval[0];
    FilterMembers(s.uvhead, s.heap.Keys - {uv});
    FilterNoDup(s.uvhead, s.heap.Keys - {uv});
  }

  lemma CutStringTable(s: State, th: Addr, uv: Addr, r: State)
    requires StringTable(s) && CutFrom(s.heap, r.heap, th, uv) && r.strt == s.strt
    ensures StringTable(r)
  {
    hide Bucket;
    forall a ensures (a in s.heap && s.heap[a].body.Str?) <==> (a in r.heap && r.heap[a].body.Str?) {}
    forall a | a in s.heap && s.heap[a].body.Str? ensures s.heap[a].body == r.heap[a].body {}
  }

  lemma CutRootList(s: State, th: Addr, uv: Addr, r: State, out: set<Addr>)
    requires RootList(s, out) && CutFrom(s.heap, r.heap, th, uv) && uv !in out
    requires if uv in r.heap then r.rootgc == [uv] + s.rootgc else r.rootgc == s.rootgc
    ensures RootList(r, out)
  {
    assert uv !in s.rootgc;
  }

  /** The state a call of CloseOne ends in, up to marks. */
  function Unlinked(s: State, th: Addr): State
    requires IsThread(s.heap, th) && s.heap[th].body.openupval != []
    requires OpenOn(s.heap, s.heap[th].body.openupval[0], th)
  {
    var uv := s.heap[th].body.openupval[0];
    if OtherWhite(s, uv) then CutOne(s, th).(heap := CutOne(s, th).heap - {uv})
    else Link(ClosedOne(s, th), uv)
  }

  lemma UnlinkedLists(s: State, th: Addr, out: set<Addr>)
    requires Lists(s, out) && IsThread(s.heap, th) && s.heap[th].body.openupval != []
    requires forall a :: a in out ==> IsThread(s.heap, a)
    ensures OpenOn(s.heap, s.heap[th].body.openupval[0], th)
    ensures Lists(Unlinked(s, th), out)
    ensures CutFrom(s.heap, Unlinked(s, th).heap, th, s.heap[th].body.openupval[0])
  {
    var uv := s.heap[th].body.openupval[0];
    assert OpenList(s.heap, th) && uv in s.heap[th].body.openupval;
    var r := Unlinked(s, th);
    assert CutFrom(s.heap, r.heap, th, uv);
    hide CutFrom, OpenLists;
    CutOpenLists(s.heap, r.heap, th, uv);
    CutRing(s, th, r.heap);
    CutStringTable(s, th, uv, r);
    CutRootList(s, th, uv, r, out);
  }

  /** What LinkUpval does to the marks. */
  lemma LinkUpvalMarks(s: State, uv: Addr, v: Value)
    requires uv in s.heap && s.heap[uv].body == UpClosed(v)
    ensures var r, c := LinkUpval(s, uv, v), Link(s, uv);
      && SameBodies(s.heap, r.heap)
      && r == c.(heap := r.heap, gray := r.gray)
      && (!s.heap[uv].mark.Gray? ==> r == c)
      && (s.heap[uv].mark.Gray? && s.phase != Propagate ==>
            r == c.(heap := SetMark(s.heap, uv, White(s.white))))
      && (s.heap[uv].mark.Gray? && s.phase == Propagate ==>
            var b := c.(heap := SetMark(s.heap, uv, Black));
            Marked(b, r) && Settled(r.heap, uv))
  {
    if s.heap[uv].mark.Gray? && s.phase == Propagate {
      var b := Link(s, uv).(heap := SetMark(s.heap, uv, Black));
      var r := LinkUpval(s, uv, v);
      assert Edges(b.heap, uv) == ValueRef(v);
      hide Edges;
      if v.Ref? && IsWhite(b.heap, v.addr) {
        MarkAllMarks(b, [v.addr]);
        assert v.addr in [v.addr];
      } else {
        MarkedRefl(b);
      }
      hide Marked;
      assert SameBodies(b.heap, r.heap) by { MarkedSame(b, r); }
      SameEdges(b.heap, r.heap);
      assert Settled(r.heap, uv);
      hide Settled;
      MarkedSame(b, r);
    }
  }

  lemma MarkedSame(s: State, r: State)
    requires Marked(s, r)
    ensures SameBodies(s.heap, r.heap) && r == s.(heap := r.heap, gray := r.gray)
  {
    hide Settled;
  }

  /** CloseOne is Unlinked up to marks. */
  lemma CloseOneMarks(s: State, th: Addr)
    requires IsThread(s.heap, th) && s.heap[th].body.openupval != []
    requires OpenOn(s.heap, s.heap[th].body.openupval[0], th)
    ensures var r, c := CloseOne(s, th), Unlinked(s, th);
      SameBodies(c.heap, r.heap) && r == c.(heap := r.heap, gray := r.gray)
  {
    var uv := s.heap[th].body.openupval[0];
    if !OtherWhite(s, uv) {
      LinkUpvalMarks(ClosedOne(s, th), uv, s.heap[th].body.stack[s.heap[uv].body.level]);
    }
  }

  // ----- colours and liveness

  /** What a call of CloseOne does outside the mark phase: nothing but the upvalue changes its mark. */
  ghost predicate CutSame(s: State, r: State, th: Addr, uv: Addr) {
    && CutFrom(s.heap, r.heap, th, uv)
    && (forall a :: a in r.heap && a != uv ==> r.heap[a].mark == s.heap[a].mark && r.heap[a].fixed == s.heap[a].fixed)
    && (uv in r.heap <==> !OtherWhite(s, uv))
    && (uv in r.heap ==> CurrentWhite(r, uv) && r.heap[uv].fixed == s.heap[uv].fixed)
    && r.white == s.white && r.phase == s.phase && r.strt == s.strt && r.sweepstr == s.sweepstr
    && Roots(r) == Roots(s) && r.mainthread == s.mainthread
    && r.rootgc == (if uv in r.heap then [uv] else []) + s.rootgc
    && r.sweepgc == (if uv in r.heap && s.sweepgc > 0 then s.sweepgc + 1 else s.sweepgc)
  }

  lemma ClosedOneFacts(s: State, th: Addr)
    requires IsThread(s.heap, th) && s.heap[th].body.openupval != []
    requires OpenOn(s.heap, s.heap[th].body.openupval[0], th)
    ensures var c, uv := ClosedOne(s, th), s.heap[th].body.openupval[0];
      && CutFrom(s.heap, c.heap, th, uv) && uv in c.heap
      && (forall a :: a in c.heap ==> c.heap[a].mark == s.heap[a].mark && c.heap[a].fixed == s.heap[a].fixed)
      && c == s.(heap := c.heap, uvhead := c.uvhead)
      && c.heap[uv].body == UpClosed(s.heap[th].body.stack[s.heap[uv].body.level])
  {
  }

  /** CutFrom looks at bodies only. */
  lemma CutFromSame(h: Heap, c: Heap, k: Heap, th: Addr, uv: Addr)
    requires CutFrom(h, c, th, uv) && SameBodies(c, k)
    ensures CutFrom(h, k, th, uv)
  {
    forall a | a in k ensures k[a].body == c[a].body {}
  }

  lemma LinkUpvalOutside(s: State, uv: Addr, v: Value)
    requires uv in s.heap && s.phase != Propagate
    ensures LinkUpval(s, uv, v) ==
      Link(s, uv).(heap := if s.heap[uv].mark.Gray? then SetMark(s.heap, uv, White(s.white)) else s.heap)
  {
  }

  lemma ClosedSame(s: State, c: State, r: State, th: Addr, uv: Addr)
    requires CutFrom(s.heap, c.heap, th, uv) && uv in c.heap && c.heap[uv].body.UpClosed?
    requires forall a :: a in c.heap ==> c.heap[a].mark == s.heap[a].mark && c.heap[a].fixed == s.heap[a].fixed
    requires c == s.(heap := c.heap, uvhead := c.uvhead)
    requires !OtherWhite(s, uv) && !s.heap[uv].mark.Black?
    requires r == Link(c, uv).(heap := if c.heap[uv].mark.Gray? then SetMark(c.heap, uv, White(s.white)) else c.heap)
    ensures CutSame(s, r, th, uv)
  {
    CutFromSame(s.heap, c.heap, r.heap, th, uv);
    hide CutFrom;
    assert Roots(r) == Roots(s) by { hide *; }
    hide Roots;
  }

  lemma CloseOneSame(s: State, th: Addr)
    requires Kinds(s) && IsThread(s.heap, th) && s.heap[th].body.openupval != []
    requires OpenOn(s.heap, s.heap[th].body.openupval[0], th)
    requires s.phase != Propagate
    ensures CutSame(s, CloseOne(s, th), th, s.heap[th].body.openupval[0])
  {
    var uv := s.heap[th].body.openupval[0];
    if !OtherWhite(s, uv) {
      var c := ClosedOne(s, th);
      var v := s.heap[th].body.stack[s.heap[uv].body.level];
      ClosedOneFacts(s, th);
      LinkUpvalOutside(c, uv, v);
      assert CloseOne(s, th) == LinkUpval(c, uv, v);
      hide CloseOne, ClosedOne, LinkUpval, CutSame;
      ClosedSame(s, c, CloseOne(s, th), th, uv);
    }
  }

  lemma CutKinds(s: State, r: State, th: Addr, uv: Addr)
    requires Kinds(s) && CutSame(s, r, th, uv)
    ensures Kinds(r)
  {
    forall a | a in r.heap && a != uv && a != th ensures r.heap[a].body == s.heap[a].body {}
  }

  lemma CutColours(s: State, r: State, th: Addr, uv: Addr)
    requires Colours(s) && CutSame(s, r, th, uv) && |s.strt| > 0 && OpenLists(s.heap)
    ensures Colours(r)
  {
    hide Bucket, Roots;
    forall a | a in r.heap && a != uv ensures CurrentWhite(s, a) <==> CurrentWhite(r, a) {}
    forall a | a in r.heap && a != uv && a != th ensures r.heap[a].body == s.heap[a].body {}
    if s.phase == Sweep {
      CutPrefix(s, r, th, uv);
    }
  }

  lemma CutPrefix(s: State, r: State, th: Addr, uv: Addr)
    requires Colours(s) && CutSame(s, r, th, uv) && s.phase == Sweep && OpenLists(s.heap)
    ensures Colours(r)
  {
    hide Roots;
    var n := |r.rootgc| - |s.rootgc|;
    assert forall a :: a in r.rootgc[..r.sweepgc] ==> a in s.rootgc[..s.sweepgc] || (a == uv && uv in r.heap);
    forall i | 0 <= i < r.sweepgc ensures CurrentWhite(r, r.rootgc[i]) {
      var a := r.rootgc[i];
      if i >= n { assert a == s.rootgc[i-n] && CurrentWhite(s, a); }
    }
    forall a | a in r.heap && r.heap[a].body.UpOpen? && r.heap[a].body.thread in r.rootgc[..r.sweepgc]
      ensures CurrentWhite(r, a)
    {
      assert a != uv && a != th && s.heap[a].body == r.heap[a].body;
      assert s.heap[a].body.thread != uv by { assert IsThread(s.heap, s.heap[a].body.thread); }
    }
  }

  lemma CutLive(s: State, r: State, th: Addr, uv: Addr)
    requires LiveClosed(s) && CutSame(s, r, th, uv) && !s.heap[uv].fixed
    ensures LiveClosed(r)
  {
    CutEdges(s.heap, r.heap, th, uv);
    hide Edges, Roots, CutFrom;
    assert forall a :: a != uv ==> (a in s.heap <==> a in r.heap) by { CutKeys(s.heap, r.heap, th, uv); }
    forall a ensures Live(s, a) <==> Live(r, a) {}
  }

  lemma CutKeys(h: Heap, k: Heap, th: Addr, uv: Addr)
    requires CutFrom(h, k, th, uv)
    ensures uv in h && forall a :: a != uv ==> (a in h <==> a in k)
  {
  }

  // ----- in the mark phase

  /** What a call of CloseOne does in the mark phase before the barrier: the upvalue is closed, and if it
      was gray it turns black. */
  ghost predicate CutMarking(s: State, b: State, th: Addr, uv: Addr) {
    && CutFrom(s.heap, b.heap, th, uv) && uv in b.heap
    && (forall a :: a in b.heap && a != uv ==> b.heap[a].mark == s.heap[a].mark)
    && (forall a :: a in b.heap ==> b.heap[a].fixed == s.heap[a].fixed)
    && b.heap[uv].mark == (if s.heap[uv].mark.Gray? then Black else s.heap[uv].mark)
    && b == Link(s, uv).(heap := b.heap, uvhead := b.uvhead)
  }

  lemma CutMarkingKinds(s: State, b: State, th: Addr, uv: Addr)
    requires Kinds(s) && NoOtherWhite(s) && CutMarking(s, b, th, uv)
    ensures Kinds(b) && NoOtherWhite(b)
  {
    forall a | a in b.heap && a != uv && a != th ensures b.heap[a].body == s.heap[a].body {}
  }

  lemma CutMarkingLive(s: State, b: State, th: Addr, uv: Addr)
    requires NoOtherWhite(s) && LiveClosed(s) && CutMarking(s, b, th, uv) && NoOtherWhite(b)
    ensures LiveClosed(b)
  {
    CutEdges(s.heap, b.heap, th, uv);
    CutKeys(s.heap, b.heap, th, uv);
    assert Roots(b) == Roots(s);
    hide Edges, Roots, CutFrom;
    forall a ensures Live(s, a) <==> Live(b, a) {}
  }

  lemma CutMarkingGray(s: State, b: State, th: Addr, uv: Addr)
    requires CutMarking(s, b, th, uv)
    ensures GrayLists(s) ==> GrayLists(b)
    ensures GrayQueued(s) ==> GrayQueued(b)
    ensures RootsMarked(s) ==> RootsMarked(b)
  {
    forall a | a in b.heap && a != uv && a != th ensures b.heap[a].body == s.heap[a].body {}
  }

  lemma CutMarkingSettled(s: State, b: State, th: Addr, uv: Addr)
    requires CutMarking(s, b, th, uv)
    ensures forall a :: a in b.heap && Settled(s.heap, a) ==> Settled(b.heap, a)
  {
    CutEdges(s.heap, b.heap, th, uv);
    CutKeys(s.heap, b.heap, th, uv);
    hide Edges, CutFrom;
    forall a ensures IsWhite(s.heap, a) <==> IsWhite(b.heap, a) {}
  }

  /** LinkUpval before its barrier, in the mark phase. */
  function Darkened(c: State, uv: Addr): State
    requires uv in c.heap
  {
    Link(c, uv).(heap := if c.heap[uv].mark.Gray? then SetMark(c.heap, uv, Black) else c.heap)
  }

  lemma ClosedDarkened(s: State, c: State, th: Addr, uv: Addr)
    requires CutFrom(s.heap, c.heap, th, uv) && uv in c.heap && c.heap[uv].body.UpClosed?
    requires forall a :: a in c.heap ==> c.heap[a].mark == s.heap[a].mark && c.heap[a].fixed == s.heap[a].fixed
    requires c == s.(heap := c.heap, uvhead := c.uvhead)
    ensures CutMarking(s, Darkened(c, uv), th, uv)
    ensures SameBodies(c.heap, Darkened(c, uv).heap)
  {
    var b := Darkened(c, uv);
    CutFromSame(s.heap, c.heap, b.heap, th, uv);
    hide CutFrom;
  }

  lemma LinkUpvalInside(c: State, uv: Addr, v: Value)
    requires uv in c.heap && c.heap[uv].body == UpClosed(v) && c.phase == Propagate
    ensures Marked(Darkened(c, uv), LinkUpval(c, uv, v))
    ensures c.heap[uv].mark.Gray? ==> Settled(LinkUpval(c, uv, v).heap, uv)
  {
    if c.heap[uv].mark.Gray? {
      LinkUpvalMarks(c, uv, v);
    } else {
      MarkedRefl(Link(c, uv));
    }
  }

  /** In the mark phase no open upvalue is dead. */
  lemma CloseOneMarking(s: State, th: Addr) returns (b: State)
    requires NoOtherWhite(s) && s.phase == Propagate
    requires IsThread(s.heap, th) && s.heap[th].body.openupval != []
    requires OpenOn(s.heap, s.heap[th].body.openupval[0], th)
    ensures var uv, r := s.heap[th].body.openupval[0], CloseOne(s, th);
      CutMarking(s, b, th, uv) && Marked(b, r) && (s.heap[uv].mark.Gray? ==> Settled(r.heap, uv))
    ensures SameBodies(Unlinked(s, th).heap, b.heap) && b == Unlinked(s, th).(heap := b.heap)
  {
    var uv := s.heap[th].body.openupval[0];
    var c := ClosedOne(s, th);
    var v := s.heap[th].body.stack[s.heap[uv].body.level];
    ClosedOneFacts(s, th);
    assert !OtherWhite(s, uv);
    assert CloseOne(s, th) == LinkUpval(c, uv, v) && Unlinked(s, th) == Link(c, uv);
    hide CloseOne, ClosedOne, Unlinked, CutMarking, LinkUpval, Settled, Marked, CutFrom, NoOtherWhite;
    b := Darkened(c, uv);
    ClosedDarkened(s, c, th, uv);
    LinkUpvalInside(c, uv, v);
  }

  lemma CutMarkingBlack(s: State, b: State, r: State, th: Addr, uv: Addr)
    requires CutMarking(s, b, th, uv) && Marked(b, r) && (s.heap[uv].mark.Gray? ==> Settled(r.heap, uv))
    requires BlackSettled(s.heap) && s.heap[uv].body.UpOpen? && Kinds(s)
    ensures BlackSettled(r.heap)
  {
    CutMarkingSettled(s, b, th, uv);
    SettledStays(b.heap, r.heap);
    CutKeys(s.heap, b.heap, th, uv);
    hide CutFrom, Settled;
    forall a | a in r.heap && r.heap[a].mark.Black? ensures Settled(r.heap, a) {
      if !Newly(b, r, a) && a != uv { assert Settled(s.heap, a); }
    }
  }

  lemma CutMarkingTriColour(s: State, b: State, r: State, th: Addr, uv: Addr)
    requires CutMarking(s, b, th, uv) && Marked(b, r) && (s.heap[uv].mark.Gray? ==> Settled(r.heap, uv))
    requires TriColour(s) && s.heap[uv].body.UpOpen? && Kinds(s)
    ensures TriColour(r)
  {
    hide BlackSettled, Settled, CutMarking, Kinds, GrayLists, Marked, GrayQueued, RootsMarked;
    CutMarkingBlack(s, b, r, th, uv);
    CutMarkingGray(s, b, th, uv);
    MarkedGrayLists(b, r);
    MarkedQueued(b, r);
  }

  lemma MarkedQueued(s: State, r: State)
    requires GrayQueued(s) && RootsMarked(s) && Marked(s, r)
    ensures GrayQueued(r) && RootsMarked(r)
  {
    MarkedGray(s, r);
    hide Settled;
  }

  lemma CutMarkingCursors(s: State, b: State, r: State, th: Addr, uv: Addr)
    requires CutMarking(s, b, th, uv) && Marked(b, r) && Cursors(s) && s.heap[uv].body.UpOpen?
    ensures Cursors(r) && r.phase == s.phase
  {
    hide Settled;
  }

  lemma InMarkPhase(s: State, out: set<Addr>)
    requires Lists(s, out) && Kinds(s) && Cursors(s) && LiveClosed(s) && NoOtherWhite(s) && TriColour(s)
    requires s.phase == Propagate
    ensures Inv(s, out)
  {
  }

  lemma OutOfMarkPhase(s: State, out: set<Addr>)
    requires Inv(s, out) && s.phase == Propagate
    ensures Lists(s, out) && Kinds(s) && Cursors(s) && LiveClosed(s) && NoOtherWhite(s) && TriColour(s)
  {
  }

  lemma MarkedLive(b: State, r: State)
    requires Marked(b, r) && LiveClosed(b) && NoOtherWhite(b)
    ensures NoOtherWhite(r) && LiveClosed(r)
  {
    hide Settled, LiveClosed;
    assert NoOtherWhite(r);
    SameLive(b, r);
  }

  lemma CloseOneInMark(s: State, th: Addr, out: set<Addr>)
    requires Inv(s, out) && s.phase == Propagate
    requires IsThread(s.heap, th) && s.heap[th].body.openupval != []
    requires OpenOn(s.heap, s.heap[th].body.openupval[0], th)
    requires Lists(CloseOne(s, th), out)
    ensures Inv(CloseOne(s, th), out)
  {
    hide CloseOne, Unlinked, Inv, Marked, CutMarking;
    var uv, r := s.heap[th].body.openupval[0], CloseOne(s, th);
    OutOfMarkPhase(s, out);
    hide Lists, LiveClosed, Kinds, TriColour, NoOtherWhite, Cursors, Settled;
    var b := CloseOneMarking(s, th);
    CutMarkingTriColour(s, b, r, th, uv);
    CutMarkingKinds(s, b, th, uv);
    CutMarkingLive(s, b, th, uv);
    MarkedKinds(b, r);
    MarkedLive(b, r);
    CutMarkingCursors(s, b, r, th, uv);
    InMarkPhase(r, out);
  }

  /** Closing the topmost open upvalue keeps the collector invariant. */
  lemma CloseOneKeeps(s: State, th: Addr, out: set<Addr>)
    requires Inv(s, out) && IsThread(s.heap, th) && s.heap[th].body.openupval != []
    requires forall a :: a in out ==> IsThread(s.heap, a)
    ensures OpenOn(s.heap, s.heap[th].body.openupval[0], th)
    ensures Inv(CloseOne(s, th), out)
  {
    var uv := s.heap[th].body.openupval[0];
    UnlinkedLists(s, th, out);
    var r, u := CloseOne(s, th), Unlinked(s, th);
    CloseOneMarks(s, th);
    hide CloseOne, Unlinked;
    SameLists(u, r, out);
    CutFromSame(s.heap, u.heap, r.heap, th, uv);
    assert OpenLists(s.heap) && |s.strt| > 0;
    assert !s.heap[uv].fixed by { assert IsThread(s.heap, s.mainthread); }
    hide Lists, CutFrom, Colours, Kinds, LiveClosed, BlackSettled, GrayLists, GrayQueued, RootsMarked, OpenLists;
    if s.phase != Propagate {
      CloseOneSame(s, th);
      CutKinds(s, r, th, uv);
      CutColours(s, r, th, uv);
      CutLive(s, r, th, uv);
      CutCursors(s, r, th, uv);
    } else {
      CloseOneInMark(s, th, out);
    }
  }

  lemma CutCursors(s: State, r: State, th: Addr, uv: Addr)
    requires CutSame(s, r, th, uv) && Cursors(s) && s.running == r.running && s.heap[uv].body.UpOpen?
    ensures Cursors(r)
  {
  }
}
