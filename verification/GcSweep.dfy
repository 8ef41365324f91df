/** The rest of the collector as functions on the state: the barriers, closing upvalues, the
    sweep, the atomic step and singlestep. */
module GcSweep {
  import opened Wrappers
  import opened GcHeap
  import opened GcMark

  // ----- barriers

  /** luaC_barrierf. */
  function BarrierF(s: State, o: Addr, v: Addr): State
    requires o in s.heap
  {
    if s.phase == Propagate then MarkAll(s, [v])
    else s.(heap := SetMark(s.heap, o, White(s.white)))
  }

  /** luaC_barrier and luaC_objbarrier: the test in front of luaC_barrierf. */
  function Barrier(s: State, o: Addr, v: Value): State
    requires o in s.heap
  {
    if v.Ref? && IsWhite(s.heap, v.addr) && s.heap[o].mark.Black? then BarrierF(s, o, v.addr) else s
  }

  /** luaC_barriert with luaC_barrierback: a black table turns gray again. */
  function BarrierT(s: State, t: Addr, v: Value): State
    requires t in s.heap
  {
    if v.Ref? && IsWhite(s.heap, v.addr) && s.heap[t].mark.Black?
    then s.(heap := SetMark(s.heap, t, Gray), grayagain := [t] + s.grayagain)
    else s
  }

  // ----- lists

  function Filter(l: seq<Addr>, keep: set<Addr>): seq<Addr> {
    if l == [] then [] else (if l[0] in keep then [l[0]] else []) + Filter(l[1..], keep)
  }

  lemma {:induction false} FilterMembers(l: seq<Addr>, keep: set<Addr>)
    ensures forall a :: a in Filter(l, keep) <==> a in l && a in keep
    ensures |Filter(l, keep)| <= |l|
    ensures (forall a :: a in l ==> a in keep) ==> Filter(l, keep) == l
  {
    if l != [] {
      FilterMembers(l[1..], keep);
      assert l == [l[0]] + l[1..];
    }
  }

  lemma {:induction false} FilterNoDup(l: seq<Addr>, keep: set<Addr>)
    requires NoDup(l)
    ensures NoDup(Filter(l, keep))
  {
    if l != [] {
      assert NoDup(l[1..]);
      FilterNoDup(l[1..], keep);
      FilterMembers(l[1..], keep);
      assert l[0] !in l[1..];
    }
  }

  // ----- upvalues

  /** luaC_link: a new object at the head of rootgc; the sweep cursor keeps its place. */
  function Link(s: State, a: Addr): State {
    s.(rootgc := [a] + s.rootgc, sweepgc := if s.sweepgc == 0 then 0 else s.sweepgc + 1)
  }

  function SetBody(h: Heap, a: Addr, b: Body): (r: Heap)
    requires a in h
    ensures r.Keys == h.Keys
  {
    h[a := h[a].(body := b)]
  }

  /** luaC_linkupval for an upvalue that has just been closed over v. */
  function LinkUpval(s: State, uv: Addr, v: Value): State
    requires uv in s.heap
  {
    var s1 := Link(s, uv);
    if !s.heap[uv].mark.Gray? then s1
    else if s.phase == Propagate then
      Barrier(s1.(heap := SetMark(s.heap, uv, Black)), uv, v)
    else s1.(heap := SetMark(s.heap, uv, White(s.white)))
  }

  predicate IsThread(h: Heap, th: Addr) { th in h && h[th].body.Thread? }

  predicate OpenOn(h: Heap, uv: Addr, th: Addr) {
    && IsThread(h, th) && uv in h && h[uv].body.UpOpen? && h[uv].body.thread == th
    && h[uv].body.level < |h[th].body.stack|
  }

  /** isdead: the object still has the white of the previous cycle. */
  predicate OtherWhite(s: State, a: Addr) {
    a in s.heap && s.heap[a].mark == White(!s.white)
  }

  /** The topmost open upvalue leaves the list of its thread and the ring. */
  function CutOne(s: State, th: Addr): State
    requires IsThread(s.heap, th) && s.heap[th].body.openupval != []
  {
    var t := s.heap[th].body;
    s.(heap := SetBody(s.heap, th, t.(openupval := t.openupval[1..])),
       uvhead := Filter(s.uvhead, s.heap.Keys - {t.openupval[0]}))
  }

  /** ... and takes over the value of its slot. */
  function ClosedOne(s: State, th: Addr): State
    requires IsThread(s.heap, th) && s.heap[th].body.openupval != []
    requires OpenOn(s.heap, s.heap[th].body.openupval[0], th)
  {
    var s1, uv := CutOne(s, th), s.heap[th].body.openupval[0];
    s1.(heap := SetBody(s1.heap, uv, UpClosed(s.heap[th].body.stack[s.heap[uv].body.level])))
  }

  /** One turn of the loop in luaF_close: the upvalue is freed if it is dead and closed otherwise. */
  function CloseOne(s: State, th: Addr): State
    requires IsThread(s.heap, th) && s.heap[th].body.openupval != []
    requires OpenOn(s.heap, s.heap[th].body.openupval[0], th)
  {
    var s1, uv := CutOne(s, th), s.heap[th].body.openupval[0];
    if OtherWhite(s, uv) then s1.(heap := s1.heap - {uv})
    else LinkUpval(ClosedOne(s, th), uv, s.heap[th].body.stack[s.heap[uv].body.level])
  }

  /** luaF_close. */
  function Close(s: State, th: Addr, level: nat): State
    decreases if IsThread(s.heap, th) then |s.heap[th].body.openupval| else 0
  {
    if !IsThread(s.heap, th) then s
    else
      var l := s.heap[th].body.openupval;
      if l == [] || !OpenOn(s.heap, l[0], th) || s.heap[l[0]].body.level < level then s
      else
        CloseOneThread(s, th);
        Close(CloseOne(s, th), th, level)
  }

  lemma LinkUpvalBodies(s: State, uv: Addr, v: Value)
    requires uv in s.heap
    ensures SameBodies(s.heap, LinkUpval(s, uv, v).heap)
  {
    if s.heap[uv].mark.Gray? && s.phase == Propagate && v.Ref? {
      MarkAllMarks(Link(s, uv).(heap := SetMark(s.heap, uv, Black)), [v.addr]);
    }
  }

  lemma CloseOneThread(s: State, th: Addr)
    requires IsThread(s.heap, th) && s.heap[th].body.openupval != []
    requires OpenOn(s.heap, s.heap[th].body.openupval[0], th)
    ensures var r := CloseOne(s, th);
            IsThread(r.heap, th)
            && r.heap[th].body == s.heap[th].body.(openupval := s.heap[th].body.openupval[1..])
  {
    var uv := s.heap[th].body.openupval[0];
    if !OtherWhite(s, uv) {
      LinkUpvalBodies(ClosedOne(s, th), uv, s.heap[th].body.stack[s.heap[uv].body.level]);
    }
  }

  // ----- sweeping

  /** The test of sweeplist: only objects with the other white and no fixed bit are freed. */
  predicate Dead(s: State, a: Addr) {
    OtherWhite(s, a) && !s.heap[a].fixed
  }

  /** sweeplist over a whole list without threads: the dead go, the rest turn the current white. */
  function SweepList(s: State, l: seq<Addr>): (r: Heap) {
    map a | a in s.heap && !(a in l && Dead(s, a)) ::
      if a in l then s.heap[a].(mark := White(s.white)) else s.heap[a]
  }

  function SweepBucket(s: State, i: nat): State
    requires i < |s.strt|
  {
    var h := SweepList(s, s.strt[i]);
    s.(heap := h, strt := s.strt[i := Filter(s.strt[i], h.Keys)])
  }

  /** The open upvalues of a thread; luaF_freeupval also unlinks the dead from the ring. */
  function SweepOpen(s: State, th: Addr): State
    requires IsThread(s.heap, th)
  {
    var l := s.heap[th].body.openupval;
    var h := SweepList(s, l);
    if th !in h then s
    else s.(heap := SetBody(h, th, s.heap[th].body.(openupval := Filter(l, h.Keys))),
            uvhead := Filter(s.uvhead, h.Keys))
  }

  /** sweeplist erases the object under the cursor; freeing a thread first closes its upvalues. */
  function EraseRoot(s: State): State
    requires s.sweepgc < |s.rootgc|
  {
    var curr := s.rootgc[s.sweepgc];
    var s1 := Close(s.(rootgc := s.rootgc[..s.sweepgc] + s.rootgc[s.sweepgc + 1..]), curr, 0);
    s1.(heap := s1.heap - {curr})
  }

  /** sweeplist whitens the object under the cursor and passes it. */
  function PassRoot(s: State): State
    requires s.sweepgc < |s.rootgc| && s.rootgc[s.sweepgc] in s.heap
  {
    s.(heap := SetMark(s.heap, s.rootgc[s.sweepgc], White(s.white)), sweepgc := s.sweepgc + 1)
  }

  /** One turn of sweeplist on rootgc. */
  function SweepRootOne(s: State): State
    requires s.sweepgc < |s.rootgc| && s.rootgc[s.sweepgc] in s.heap
  {
    var curr := s.rootgc[s.sweepgc];
    var s1 := if s.heap[curr].body.Thread? then SweepOpen(s, curr) else s;
    if Dead(s, curr) then EraseRoot(s1)
    else if curr in s1.heap then PassRoot(s1) else s1
  }

  /** sweeplist on rootgc for at most count objects. */
  function SweepRoot(s: State, count: nat): State
    decreases count
  {
    if count == 0 || s.sweepgc >= |s.rootgc| || s.rootgc[s.sweepgc] !in s.heap then s
    else SweepRoot(SweepRootOne(s), count - 1)
  }

  const GCSWEEPMAX: nat := 40

  // ----- the state machine

  /** The marking part of atomic. */
  function AtomicMark(s: State): State
    requires Queued(s)
  {
    var s1 := RemarkUpvals(s, s.uvhead);
    RemarkQueued(s, s.uvhead);
    var s2 := PropagateAll(s1);
    var s3 := MarkAll(s2, [s.running] + OptRefs(s.mt));
    MarkAllQueued(s2, [s.running] + OptRefs(s.mt));
    var s4 := PropagateAll(s3);
    PropagateAll(s4.(gray := s4.grayagain, grayagain := []))
  }

  /** The current white flips, so that what is still white is dead. */
  function Flip(s: State): State {
    s.(white := !s.white, sweepstr := 0, sweepgc := 0, phase := SweepString)
  }

  function Atomic(s: State): State
    requires Queued(s)
  {
    Flip(AtomicMark(s))
  }

  lemma MarkAllQueued(s: State, l: seq<Addr>)
    requires Queued(s)
    ensures Queued(MarkAll(s, l))
  {
    MarkAllMarks(s, l);
    var r := MarkAll(s, l);
    var n := |r.gray| - |s.gray|;
    assert r.gray == r.gray[..n] + r.gray[n..];
  }

  lemma {:induction false} RemarkQueued(s: State, ring: seq<Addr>)
    requires Queued(s)
    ensures Queued(RemarkUpvals(s, ring))
    decreases |ring|
  {
    if ring != [] {
      var uv := ring[0];
      if uv in s.heap && s.heap[uv].mark.Gray? {
        MarkAllQueued(s, Edges(s.heap, uv));
        RemarkQueued(MarkAll(s, Edges(s.heap, uv)), ring[1..]);
      } else {
        RemarkQueued(s, ring[1..]);
      }
    }
  }

  /** singlestep, for a heap without finalizers. */
  function SingleStep(s: State): State
    requires IsThread(s.heap, s.mainthread)
    requires s.phase == Propagate ==> Queued(s)
    requires s.phase == SweepString ==> s.sweepstr < |s.strt|
  {
    match s.phase
    case Pause => MarkRoot(s)
    case Propagate => if s.gray != [] then PropagateMark(s) else Atomic(s)
    case SweepString =>
      var s1 := SweepBucket(s, s.sweepstr).(sweepstr := s.sweepstr + 1);
      if s1.sweepstr >= |s1.strt| then s1.(phase := Sweep) else s1
    case Sweep =>
      var s1 := SweepRoot(s, GCSWEEPMAX);
      if s1.sweepgc >= |s1.rootgc| then s1.(phase := Finalize) else s1
    case Finalize => s.(phase := Pause)
  }
}
