/** The marking half of the collector, as functions on the state: reallymarkobject, the
    traversals, propagatemark and markroot, with what one call of each promises. */
module GcMark {
  import opened Wrappers
  import opened GcHeap

  // ----- marking

  /** reallymarkobject: strings turn gray and are done, userdata and closed upvalues turn black
      once their references are marked, open upvalues stay gray, the rest wait on the gray list. */
  function ReallyMark(s: State, o: Addr): (r: State)
    requires IsWhite(s.heap, o)
    ensures r.heap.Keys == s.heap.Keys && Whites(r.heap) <= Whites(s.heap) - {o}
    decreases Whites(s.heap), 0, 0
  {
    var s1 := s.(heap := SetMark(s.heap, o, Gray));
    assert o in Whites(s.heap);
    match s.heap[o].body
    case Str(_) => s1
    case Udata(_, _) => MarkAll(s.(heap := SetMark(s.heap, o, Black)), Edges(s.heap, o))
    case UpOpen(_, _) => MarkAll(s1, Edges(s.heap, o))
    case UpClosed(_) =>
      var s2 := MarkAll(s1, Edges(s.heap, o));
      s2.(heap := SetMark(s2.heap, o, Black))
    case _ => s1.(gray := [o] + s.gray)
  }

  /** markobject or markvalue on each reference in turn. */
  function MarkAll(s: State, l: seq<Addr>): (r: State)
    ensures r.heap.Keys == s.heap.Keys && Whites(r.heap) <= Whites(s.heap)
    ensures Whites(r.heap) == Whites(s.heap) ==> r.gray == s.gray
    decreases Whites(s.heap), 1, |l|
  {
    if l == [] then s
    else if IsWhite(s.heap, l[0]) then
      var s1 := ReallyMark(s, l[0]);
      assert l[0] in Whites(s.heap);
      MarkAll(s1, l[1..])
    else MarkAll(s, l[1..])
  }

  // ----- what marking promises

  /** Everything the object refers to is marked. */
  ghost predicate Settled(h: Heap, a: Addr) {
    forall c :: c in Edges(h, a) ==> !IsWhite(h, c)
  }

  ghost predicate NoDup<T(!new)>(l: seq<T>) {
    forall i, j :: 0 <= i < j < |l| ==> l[i] != l[j]
  }

  ghost predicate SameBodies(h: Heap, k: Heap) {
    && h.Keys == k.Keys
    && forall a :: a in h ==> k[a] == h[a].(mark := k[a].mark)
  }

  /** The mark an object gets when marking reaches it. */
  function FirstMark(b: Body): Mark {
    if b.Udata? || b.UpClosed? then Black else Gray
  }

  ghost predicate Newly(s: State, r: State, a: Addr) {
    IsWhite(s.heap, a) && !IsWhite(r.heap, a)
  }

  ghost predicate MarksOnly(h: Heap, k: Heap) {
    && SameBodies(h, k)
    && forall a :: a in h ==>
         if !h[a].mark.White? then k[a].mark == h[a].mark
         else k[a].mark == h[a].mark || k[a].mark == FirstMark(h[a].body)
  }

  /** r is s after marking: marks only grow, each newly marked object is either settled or queued
      exactly once on the gray list, and nothing else changes. */
  ghost predicate Marked(s: State, r: State) {
    && r == s.(heap := r.heap, gray := r.gray)
    && MarksOnly(s.heap, r.heap)
    && |s.gray| <= |r.gray|
    && var n := |r.gray| - |s.gray|;
    && r.gray[n..] == s.gray
    && NoDup(r.gray[..n])
    && (forall a :: a in r.gray[..n] <==> Newly(s, r, a) && Listed(s.heap[a].body))
    && (forall a :: Newly(s, r, a) && !Listed(s.heap[a].body) ==> Settled(r.heap, a))
  }

  lemma SameViews(h: Heap, k: Heap)
    requires SameBodies(h, k)
    ensures forall a :: a in h ==> View(h, a) == View(k, a)
  {
    forall th, level ensures Slot(h, th, level) == Slot(k, th, level) {}
  }

  lemma SameEdges(h: Heap, k: Heap)
    requires SameBodies(h, k)
    ensures forall a :: Edges(h, a) == Edges(k, a)
  {
    SameViews(h, k);
    hide View;
  }

  lemma SettledStays(h: Heap, k: Heap)
    requires MarksOnly(h, k)
    ensures forall a :: Settled(h, a) ==> Settled(k, a)
  {
    SameEdges(h, k);
    hide Edges;
  }

  lemma MarkedRefl(s: State)
    ensures Marked(s, s)
  {
  }

  /** The additions to a list in two rounds, put together. */
  lemma GrayTwice(a: seq<Addr>, b: seq<Addr>, c: seq<Addr>)
    requires |a| <= |b| <= |c| && b[|b| - |a|..] == a && c[|c| - |b|..] == b
    ensures c[|c| - |a|..] == a && c[..|c| - |a|] == c[..|c| - |b|] + b[..|b| - |a|]
  {
    assert c == c[..|c| - |b|] + b && b == b[..|b| - |a|] + a;
  }

  lemma NoDupAppend(l: seq<Addr>, m: seq<Addr>)
    requires NoDup(l) && NoDup(m) && forall a :: a in l ==> a !in m
    ensures NoDup(l + m)
  {
    forall i, j | 0 <= i < j < |l + m| ensures (l + m)[i] != (l + m)[j] {
      if i < |l| <= j { assert l[i] in l && m[j - |l|] in m; }
    }
  }

  lemma NewlyTwice(s: State, t: State, r: State, a: Addr)
    requires MarksOnly(s.heap, t.heap) && MarksOnly(t.heap, r.heap)
    ensures Newly(s, r, a) <==> Newly(s, t, a) || Newly(t, r, a)
    ensures !(Newly(s, t, a) && Newly(t, r, a))
    ensures Newly(s, r, a) || Newly(t, r, a) ==>
      a in s.heap && a in t.heap && Listed(s.heap[a].body) == Listed(t.heap[a].body)
  {
  }

  lemma MarkedTrans(s: State, t: State, r: State)
    requires Marked(s, t) && Marked(t, r)
    ensures Marked(s, r)
  {
    hide Edges, Settled, Listed;
    var g1, g2 := t.gray[..|t.gray| - |s.gray|], r.gray[..|r.gray| - |t.gray|];
    GrayTwice(s.gray, t.gray, r.gray);
    assert MarksOnly(s.heap, r.heap) by { MarksTwice(s.heap, t.heap, r.heap); }
    SettledStays(t.heap, r.heap);
    hide MarksOnly, SameBodies;
    forall a
      ensures a in g2 + g1 <==> Newly(s, r, a) && Listed(s.heap[a].body)
      ensures Newly(s, r, a) && !Listed(s.heap[a].body) ==> Settled(r.heap, a)
      ensures a in g2 ==> a !in g1
    {
      NewlyTwice(s, t, r, a);
    }
    hide Newly;
    NoDupAppend(g2, g1);
  }

  lemma MarksTwice(h: Heap, m: Heap, k: Heap)
    requires MarksOnly(h, m) && MarksOnly(m, k)
    ensures MarksOnly(h, k)
  {
  }

  lemma {:induction false} ReallyMarkMarks(s: State, o: Addr)
    requires IsWhite(s.heap, o)
    ensures Marked(s, ReallyMark(s, o)) && !IsWhite(ReallyMark(s, o).heap, o)
    decreases Whites(s.heap), 0, 0
  {
    var s1 := s.(heap := SetMark(s.heap, o, FirstMark(s.heap[o].body)));
    var r := ReallyMark(s, o);
    assert o in Whites(s.heap);
    match s.heap[o].body
    case Str(_) => MarkedLeaf(s, o);
    case Udata(_, _) =>
      MarkAllMarks(s1, Edges(s.heap, o));
      MarkedAround(s, o, s1, r);
    case UpOpen(_, _) =>
      MarkAllMarks(s1, Edges(s.heap, o));
      MarkedAround(s, o, s1, r);
    case UpClosed(_) =>
      var g1 := s.(heap := SetMark(s.heap, o, Gray));
      var g2 := MarkAll(g1, Edges(s.heap, o));
      MarkAllMarks(g1, Edges(s.heap, o));
      MarkedClosed(s, o, g1, g2, r);
    case _ => MarkedLeaf(s, o);
  }

  lemma {:induction false} MarkAllMarks(s: State, l: seq<Addr>)
    ensures Marked(s, MarkAll(s, l))
    ensures forall a :: a in l ==> !IsWhite(MarkAll(s, l).heap, a)
    decreases Whites(s.heap), 1, |l|
  {
    hide Marked, ReallyMark, MarkAll, IsWhite;
    if l == [] {
      MarkNone(s);
    } else {
      var s1 := MarkFirst(s, l);
      if IsWhite(s.heap, l[0]) { ReallyMarkMarks(s, l[0]); } else { MarkedRefl(s); }
      MarkAllMarks(s1, l[1..]);
      MarkedTrans(s, s1, MarkAll(s, l));
      StaysMarked(s1, MarkAll(s, l), l[0]);
      assert l == [l[0]] + l[1..];
    }
  }

  lemma MarkNone(s: State)
    ensures Marked(s, MarkAll(s, []))
  {
    MarkedRefl(s);
  }

  /** The first reference of a list, marked. */
  lemma MarkFirst(s: State, l: seq<Addr>) returns (s1: State)
    requires l != []
    ensures MarkAll(s, l) == MarkAll(s1, l[1..])
    ensures IsWhite(s.heap, l[0]) ==> s1 == ReallyMark(s, l[0]) && Whites(s1.heap) < Whites(s.heap)
    ensures !IsWhite(s.heap, l[0]) ==> s1 == s
  {
    hide ReallyMark;
    s1 := if IsWhite(s.heap, l[0]) then ReallyMark(s, l[0]) else s;
    if IsWhite(s.heap, l[0]) { assert l[0] in Whites(s.heap); }
  }

  lemma StaysMarked(s: State, r: State, a: Addr)
    requires Marked(s, r) && !IsWhite(s.heap, a)
    ensures !IsWhite(r.heap, a)
  {
  }

  /** One object turns gray, and waits on the gray list if it is of a kind that does. */
  lemma MarkedGrayOne(s: State, o: Addr, r: State)
    requires IsWhite(s.heap, o) && FirstMark(s.heap[o].body) == Gray
    requires r == s.(heap := SetMark(s.heap, o, Gray), gray := (if Listed(s.heap[o].body) then [o] else []) + s.gray)
    requires !Listed(s.heap[o].body) ==> Settled(r.heap, o)
    ensures Marked(s, r)
  {
    hide Settled, Listed;
    forall a ensures Newly(s, r, a) <==> a == o {}
    assert MarksOnly(s.heap, r.heap);
    hide MarksOnly, IsWhite, Newly;
    var g := if Listed(s.heap[o].body) then [o] else [];
    assert r.gray[|g|..] == s.gray && r.gray[..|g|] == g;
  }

  lemma MarkedLeaf(s: State, o: Addr)
    requires IsWhite(s.heap, o)
    requires s.heap[o].body.Str? || Listed(s.heap[o].body)
    ensures Marked(s, ReallyMark(s, o))
  {
    hide MarkAll, Marked, Settled;
    var r := ReallyMark(s, o);
    assert [] + s.gray == s.gray;
    if s.heap[o].body.Str? { StringSettled(r.heap, o); }
    hide Edges, ReallyMark;
    MarkedGrayOne(s, o, r);
  }

  lemma StringSettled(h: Heap, a: Addr)
    requires a in h && h[a].body.Str?
    ensures Settled(h, a)
  {
  }

  lemma MarkedAround(s: State, o: Addr, s1: State, r: State)
    requires IsWhite(s.heap, o) && !Listed(s.heap[o].body)
    requires s1 == s.(heap := SetMark(s.heap, o, FirstMark(s.heap[o].body)))
    requires Marked(s1, r) && forall c :: c in Edges(s.heap, o) ==> !IsWhite(r.heap, c)
    ensures Marked(s, r)
  {
    SameEdges(s.heap, r.heap);
    assert forall a :: Newly(s, r, a) <==> Newly(s1, r, a) || a == o;
    assert Settled(r.heap, o);
  }

  lemma MarkedClosed(s: State, o: Addr, g1: State, g2: State, r: State)
    requires IsWhite(s.heap, o) && s.heap[o].body.UpClosed?
    requires g1 == s.(heap := SetMark(s.heap, o, Gray))
    requires Marked(g1, g2) && forall c :: c in Edges(s.heap, o) ==> !IsWhite(g2.heap, c)
    requires r == g2.(heap := SetMark(g2.heap, o, Black))
    ensures Marked(s, r)
  {
    SameEdges(s.heap, g2.heap);
    SameEdges(s.heap, r.heap);
    forall a ensures IsWhite(r.heap, a) <==> IsWhite(g2.heap, a) {}
    forall a ensures Newly(s, r, a) <==> Newly(g1, g2, a) || a == o {}
    forall a | Settled(g2.heap, a) ensures Settled(r.heap, a) {}
    var n := |r.gray| - |s.gray|;
    forall a ensures a in r.gray[..n] <==> Newly(s, r, a) && Listed(s.heap[a].body) {
      assert a in g2.gray[..n] <==> Newly(g1, g2, a) && Listed(g1.heap[a].body);
    }
    forall a | Newly(s, r, a) && !Listed(s.heap[a].body) ensures Settled(r.heap, a) {}
  }

  /** Marking reaches only what the given references reach. */
  lemma {:induction false} MarkAllInside(s: State, l: seq<Addr>, good: iset<Addr>)
    requires forall a :: a in l ==> a in good
    requires forall a, c :: a in good && c in Edges(s.heap, a) ==> c in good
    ensures forall a :: Newly(s, MarkAll(s, l), a) ==> a in good
    decreases Whites(s.heap), 1, |l|
  {
    if l != [] {
      assert l[0] in l && forall a :: a in l[1..] ==> a in l;
      if IsWhite(s.heap, l[0]) {
        var s1 := ReallyMark(s, l[0]);
        assert l[0] in Whites(s.heap);
        ReallyMarkInside(s, l[0], good);
        ReallyMarkMarks(s, l[0]);
        SameEdges(s.heap, s1.heap);
        MarkAllInside(s1, l[1..], good);
        assert forall a :: Newly(s, MarkAll(s, l), a) ==> Newly(s, s1, a) || Newly(s1, MarkAll(s1, l[1..]), a);
      } else {
        MarkAllInside(s, l[1..], good);
      }
    }
  }

  lemma {:induction false} ReallyMarkInside(s: State, o: Addr, good: iset<Addr>)
    requires IsWhite(s.heap, o) && o in good
    requires forall a, c :: a in good && c in Edges(s.heap, a) ==> c in good
    ensures forall a :: Newly(s, ReallyMark(s, o), a) ==> a in good
    decreases Whites(s.heap), 0, 0
  {
    var b := s.heap[o].body;
    if b.Udata? || b.UpOpen? || b.UpClosed? {
      var s1 := s.(heap := SetMark(s.heap, o, if b.Udata? then Black else Gray));
      assert o in Whites(s.heap);
      SameEdges(s.heap, s1.heap);
      MarkAllInside(s1, Edges(s.heap, o), good);
      assert forall a :: Newly(s, ReallyMark(s, o), a) ==> a == o || Newly(s1, MarkAll(s1, Edges(s.heap, o)), a);
    }
  }

  // ----- propagation

  /** propagatemark up to the traversal: the first gray object turns black and leaves the gray list.
      A thread goes to grayagain and stays gray, because stores to its stack have no barrier. */
  function Popped(s: State): (r: State)
    requires s.gray != [] && s.gray[0] in s.heap
    ensures r.heap.Keys == s.heap.Keys && Whites(r.heap) <= Whites(s.heap)
  {
    var o := s.gray[0];
    if s.heap[o].body.Thread? then s.(gray := s.gray[1..], grayagain := [o] + s.grayagain)
    else s.(gray := s.gray[1..], heap := SetMark(s.heap, o, Black))
  }

  /** propagatemark: marks what the first gray object refers to. */
  function PropagateMark(s: State): (r: State)
    requires s.gray != [] && s.gray[0] in s.heap
    ensures r.heap.Keys == s.heap.Keys && Whites(r.heap) <= Whites(s.heap)
    ensures Whites(r.heap) == Whites(s.heap) ==> |r.gray| < |s.gray|
  {
    MarkAll(Popped(s), Edges(s.heap, s.gray[0]))
  }

  lemma PropagateMarked(s: State)
    requires s.gray != [] && s.gray[0] in s.heap
    ensures Marked(Popped(s), PropagateMark(s))
    ensures Settled(PropagateMark(s).heap, s.gray[0])
  {
    var p, r := Popped(s), PropagateMark(s);
    assert SameBodies(s.heap, p.heap);
    SameEdges(s.heap, p.heap);
    hide Edges, Popped;
    MarkAllMarks(p, Edges(s.heap, s.gray[0]));
    SameEdges(p.heap, r.heap);
  }

  /** What marking adds goes in front of the gray list. */
  lemma MarkedGray(s: State, r: State)
    requires Marked(s, r)
    ensures forall a :: a in r.gray <==> a in s.gray || (Newly(s, r, a) && Listed(s.heap[a].body))
  {
    var n := |r.gray| - |s.gray|;
    assert r.gray == r.gray[..n] + s.gray;
  }

  /** Gray lists hold addresses of objects. */
  ghost predicate Queued(s: State) {
    forall a :: a in s.gray || a in s.grayagain ==> a in s.heap && Listed(s.heap[a].body)
  }

  function PropagateAll(s: State): (r: State)
    requires Queued(s)
    ensures r.heap.Keys == s.heap.Keys && Whites(r.heap) <= Whites(s.heap)
    ensures r.gray == [] && Queued(r)
    decreases Whites(s.heap), |s.gray|
  {
    if s.gray == [] then s
    else
      PropagateQueued(s);
      PropagateAll(PropagateMark(s))
  }

  lemma PropagateQueued(s: State)
    requires Queued(s) && s.gray != []
    ensures Queued(PropagateMark(s))
  {
    PropagateMarked(s);
    MarkedGray(Popped(s), PropagateMark(s));
    hide PropagateMark, Edges, Settled;
  }

  // ----- roots and upvalues

  function MarkRoot(s: State): State
    requires s.mainthread in s.heap && s.heap[s.mainthread].body.Thread?
  {
    var s1 := s.(gray := [], grayagain := []);
    MarkAll(s1, [s.mainthread] + ValueRef(s.heap[s.mainthread].body.gt)
                + ValueRef(s.registry) + OptRefs(s.mt)).(phase := Propagate)
  }

  /** remarkupvals over the rest of the ring. */
  function RemarkUpvals(s: State, ring: seq<Addr>): (r: State)
    ensures r.heap.Keys == s.heap.Keys && Whites(r.heap) <= Whites(s.heap)
    decreases |ring|
  {
    if ring == [] then s
    else
      var uv := ring[0];
      var s1 := if uv in s.heap && s.heap[uv].mark.Gray? then MarkAll(s, Edges(s.heap, uv)) else s;
      RemarkUpvals(s1, ring[1..])
  }
}
