/** The collector itself: the fields of global_State it updates in place, and the functions of lgc.c
    as methods. Each is proved to compute the specification function of the same name, and
    luaC_fullgc is proved exact. */
module Collector {
  import opened Wrappers
  import opened GcHeap
  import opened GcMark
  import opened GcSweep
  import opened GcInvariant
  import opened GcClose
  import opened GcSweepKeeps
  import opened GcMutator
  import opened GcMutatorKeeps
  import opened GcRuns
  import opened GcFull
  import opened GcKeys

  lemma {:induction false} FilterAgree(l: seq<Addr>, k: set<Addr>, m: set<Addr>)
    requires forall a :: a in l ==> (a in k <==> a in m)
    ensures Filter(l, k) == Filter(l, m)
  {
    if l != [] { assert l == [l[0]] + l[1..]; FilterAgree(l[1..], k, m); }
  }

  lemma {:induction false} FilterAppend(l: seq<Addr>, m: seq<Addr>, k: set<Addr>)
    ensures Filter(l + m, k) == Filter(l, k) + Filter(m, k)
  {
    if l == [] {
      assert l + m == m;
    } else {
      assert (l + m)[1..] == l[1..] + m && (l + m)[0] == l[0];
      FilterAppend(l[1..], m, k);
      var x, a, b := if l[0] in k then [l[0]] else [], Filter(l[1..], k), Filter(m, k);
      assert Filter(l + m, k) == x + (a + b);
      assert x + (a + b) == (x + a) + b;
    }
  }

  lemma SweepListStep(s: State, l: seq<Addr>, i: nat)
    requires NoDup(l) && (forall a :: a in l ==> a in s.heap) && i < |l|
    ensures var h, k, curr := SweepList(s, l[..i]), SweepList(s, l[..i+1]), l[i];
      && curr in h && h[curr] == s.heap[curr]
      && k == (if Dead(s, curr) then h - {curr} else SetMark(h, curr, White(s.white)))
      && Filter(l[..i+1], k.Keys) == Filter(l[..i], h.Keys) + if Dead(s, curr) then [] else [curr]
  {
    var h, k, curr := SweepList(s, l[..i]), SweepList(s, l[..i+1]), l[i];
    assert l[..i+1] == l[..i] + [curr];
    assert curr !in l[..i] && curr in l;
    assert k == (if Dead(s, curr) then h - {curr} else SetMark(h, curr, White(s.white)));
    hide SweepList;
    FilterAppend(l[..i], [curr], k.Keys);
    FilterAgree(l[..i], h.Keys, k.Keys);
    assert Filter([curr], k.Keys) == if Dead(s, curr) then [] else [curr] by { assert [curr][1..] == []; }
  }

  class Global {
    var heap: Heap
    var rootgc: seq<Addr>
    var strt: seq<seq<Addr>>
    var uvhead: seq<Addr>
    var gray: seq<Addr>
    var grayagain: seq<Addr>
    var white: bool
    var phase: Phase
    var sweepstr: nat
    var sweepgc: nat
    var mainthread: Addr
    var registry: Value
    var mt: seq<Option<Addr>>
    var running: Addr
    /** The collectable keys of empty table entries, as far as they are not dead. */
    var keys: KeyMap

    ghost function S(): State
      reads this
    {
      State(heap, rootgc, strt, uvhead, gray, grayagain, white, phase, sweepstr, sweepgc,
            mainthread, registry, mt, running)
    }

    // ----- marking

    method ReallyMarkObject(o: Addr)
      requires IsWhite(heap, o)
      modifies `heap, `gray
      ensures S() == ReallyMark(old(S()), o)
      decreases Whites(heap), 0, 0
    {
      var refs := Edges(heap, o);
      assert o in Whites(heap);
      heap := SetMark(heap, o, Gray);
      match heap[o].body {
        case Str(_) =>
        case Udata(_, _) =>
          heap := SetMark(heap, o, Black);
          assert heap == SetMark(old(heap), o, Black);
          MarkValues(refs);
        case UpOpen(_, _) =>
          MarkValues(refs);
        case UpClosed(_) =>
          MarkValues(refs);
          heap := SetMark(heap, o, Black);
        case _ =>
          gray := [o] + gray;
      }
    }

    method MarkValues(refs: seq<Addr>)
      modifies `heap, `gray
      ensures S() == MarkAll(old(S()), refs)
      decreases Whites(heap), 1, 0
    {
      var i := 0;
      while i < |refs|
        invariant 0 <= i <= |refs|
        invariant Whites(heap) <= old(Whites(heap))
        invariant MarkAll(old(S()), refs) == MarkAll(S(), refs[i..])
        invariant S() == old(S()).(heap := heap, gray := gray)
      {
        assert refs[i..][0] == refs[i] && refs[i..][1..] == refs[i+1..];
        if IsWhite(heap, refs[i]) {
          ghost var s := S();
          ReallyMarkObject(refs[i]);
          assert refs[i] in Whites(s.heap);
        }
        i := i + 1;
      }
    }

    method PropagateMark()
      requires gray != [] && gray[0] in heap
      modifies `heap, `gray, `grayagain, `keys
      ensures S() == GcMark.PropagateMark(old(S())) && keys == ClearedKey(old(S()), old(keys))
    {
      hide MarkAll, Edges, Popped, ClearedKey;
      var refs := PopGray();
      MarkValues(refs);
    }

    /** The first gray object is taken off its list; a table loses the keys of empty entries. */
    method PopGray() returns (refs: seq<Addr>)
      requires gray != [] && gray[0] in heap
      modifies `heap, `gray, `grayagain, `keys
      ensures S() == Popped(old(S())) && keys == ClearedKey(old(S()), old(keys))
      ensures refs == Edges(old(heap), old(gray[0]))
    {
      var o := gray[0];
      refs := Edges(heap, o);
      gray := gray[1..];
      if heap[o].body.Thread? {
        grayagain := [o] + grayagain;
      } else {
        if heap[o].body.Table? && o in keys { keys := keys[o := {}]; }
        heap := SetMark(heap, o, Black);
      }
    }

    method PropagateAll()
      requires Queued(S())
      modifies `heap, `gray, `grayagain, `keys
      ensures S() == GcMark.PropagateAll(old(S())) && keys == ClearedAll(old(S()), old(keys))
    {
      hide Edges, Settled, GcMark.PropagateMark, GcMark.PropagateAll, Queued, ClearedAll, ClearedKey;
      while gray != []
        invariant Queued(S())
        invariant GcMark.PropagateAll(old(S())) == GcMark.PropagateAll(S())
        invariant ClearedAll(old(S()), old(keys)) == ClearedAll(S(), keys)
        invariant S() == old(S()).(heap := heap, gray := gray, grayagain := grayagain)
        decreases Whites(heap), |gray|
      {
        AllUnroll(S(), keys);
        PropagateMark();
      }
      AllDone(S(), keys);
    }

    method MarkRoot()
      requires IsThread(heap, mainthread)
      modifies `heap, `gray, `grayagain, `phase
      ensures S() == GcMark.MarkRoot(old(S()))
    {
      gray := [];
      grayagain := [];
      MarkValues([mainthread] + ValueRef(heap[mainthread].body.gt) + ValueRef(registry) + OptRefs(mt));
      phase := Propagate;
    }

    method RemarkUpvals()
      modifies `heap, `gray
      ensures S() == GcMark.RemarkUpvals(old(S()), old(uvhead))
    {
      var i := 0;
      while i < |uvhead|
        invariant 0 <= i <= |uvhead|
        invariant GcMark.RemarkUpvals(old(S()), uvhead) == GcMark.RemarkUpvals(S(), uvhead[i..])
        invariant S() == old(S()).(heap := heap, gray := gray)
      {
        var uv := uvhead[i];
        assert uvhead[i..][0] == uv && uvhead[i..][1..] == uvhead[i+1..];
        if uv in heap && heap[uv].mark.Gray? {
          MarkValues(Edges(heap, uv));
        }
        i := i + 1;
      }
    }

    /** remarkupvals and propagateall. */
    method AtomicFirst()
      requires Queued(S())
      modifies `heap, `gray, `grayagain, `keys
      ensures Queued(GcMark.RemarkUpvals(old(S()), old(uvhead)))
      ensures S() == GcMark.PropagateAll(GcMark.RemarkUpvals(old(S()), old(uvhead)))
      ensures keys == ClearedAll(GcMark.RemarkUpvals(old(S()), old(uvhead)), old(keys))
    {
      RemarkQueued(S(), uvhead);
      RemarkUpvals();
      PropagateAll();
    }

    /** The running thread and the type metatables, marked again. */
    method AtomicSecond()
      requires Queued(S())
      modifies `heap, `gray, `grayagain, `keys
      ensures Queued(MarkAll(old(S()), [running] + OptRefs(mt)))
      ensures S() == GcMark.PropagateAll(MarkAll(old(S()), [running] + OptRefs(mt)))
      ensures keys == ClearedAll(MarkAll(old(S()), [running] + OptRefs(mt)), old(keys))
    {
      MarkAllQueued(S(), [running] + OptRefs(mt));
      MarkValues([running] + OptRefs(mt));
      PropagateAll();
    }

    /** Both rounds before the threads are traversed again. */
    method AtomicTwice()
      requires Queued(S())
      modifies `heap, `gray, `grayagain, `keys
      ensures S() == Twice(old(S())) && keys == TwiceCleared(old(S()), old(keys))
    {
      hide GcMark.PropagateAll, GcMark.RemarkUpvals, MarkAll, Queued, ClearedAll;
      AtomicFirst();
      AtomicSecond();
    }

    method Atomic()
      requires Queued(S())
      modifies this
      ensures S() == GcSweep.Atomic(old(S())) && keys == ClearedAtomic(old(S()), old(keys))
    {
      hide GcMark.PropagateAll, Twice, TwiceCleared, AtomicMark, Queued, ClearedAll, ClearedAtomic;
      AtomicUnfold(S(), keys);
      AtomicTwice();
      gray := grayagain;
      grayagain := [];
      PropagateAll();
      FlipWhite();
    }

    /** The end of atomic. */
    method FlipWhite()
      modifies `white, `sweepstr, `sweepgc, `phase
      ensures S() == Flip(old(S()))
    {
      white := !white;
      sweepstr := 0;
      sweepgc := 0;
      phase := SweepString;
    }

    // ----- barriers

    method BarrierForward(o: Addr, v: Addr)
      requires o in heap
      modifies `heap, `gray
      ensures S() == BarrierF(old(S()), o, v)
    {
      if phase == Propagate {
        MarkValues([v]);
      } else {
        heap := SetMark(heap, o, White(white));
      }
    }

    method BarrierObject(o: Addr, v: Value)
      requires o in heap
      modifies `heap, `gray
      ensures S() == Barrier(old(S()), o, v)
    {
      if v.Ref? && IsWhite(heap, v.addr) && heap[o].mark.Black? {
        BarrierForward(o, v.addr);
      }
    }

    method BarrierTable(t: Addr, v: Value)
      requires t in heap
      modifies `heap, `grayagain
      ensures S() == BarrierT(old(S()), t, v)
    {
      if v.Ref? && IsWhite(heap, v.addr) && heap[t].mark.Black? {
        heap := SetMark(heap, t, Gray);
        grayagain := [t] + grayagain;
      }
    }

    // ----- upvalues

    method LinkObject(a: Addr)
      modifies `rootgc, `sweepgc
      ensures S() == Link(old(S()), a)
    {
      rootgc := [a] + rootgc;
      sweepgc := if sweepgc == 0 then 0 else sweepgc + 1;
    }

    method LinkUpvalue(uv: Addr, v: Value)
      requires uv in heap
      modifies `rootgc, `sweepgc, `heap, `gray
      ensures S() == LinkUpval(old(S()), uv, v)
    {
      LinkObject(uv);
      if heap[uv].mark.Gray? {
        if phase == Propagate {
          heap := SetMark(heap, uv, Black);
          BarrierObject(uv, v);
        } else {
          heap := SetMark(heap, uv, White(white));
        }
      }
    }

    method CloseUpvals(th: Addr, level: nat, ghost out: set<Addr>)
      requires Inv(S(), out) && IsThread(heap, th) && forall a :: a in out ==> IsThread(heap, a)
      modifies `rootgc, `sweepgc, `heap, `gray, `uvhead
      ensures S() == Close(old(S()), th, level)
    {
      hide Inv;
      HeadOpen(S(), th, out);
      while heap[th].body.openupval != [] && Level(heap, heap[th].body.openupval[0]) >= level
        invariant IsThread(heap, th) && Inv(S(), out) && forall a :: a in out ==> IsThread(heap, a)
        invariant heap[th].body.openupval != [] ==> OpenOn(heap, heap[th].body.openupval[0], th)
        invariant Close(old(S()), th, level) == Close(S(), th, level)
        invariant S() == old(S()).(heap := heap, rootgc := rootgc, sweepgc := sweepgc, gray := gray, uvhead := uvhead)
        decreases |heap[th].body.openupval|
      {
        ghost var s := S();
        CloseOneThread(s, th);
        CloseOneKeeps(s, th, out);
        forall a | a in out ensures IsThread(CloseOne(s, th).heap, a) { StillThread(s, th, a, out); }
        CloseTop(th);
        HeadOpen(S(), th, out);
      }
    }

    method CloseTop(th: Addr)
      requires IsThread(heap, th) && heap[th].body.openupval != []
      requires OpenOn(heap, heap[th].body.openupval[0], th)
      modifies `rootgc, `sweepgc, `heap, `gray, `uvhead
      ensures S() == CloseOne(old(S()), th)
    {
      var t := heap[th].body;
      var uv := t.openupval[0];
      var dead := heap[uv].mark == White(!white);
      var v := t.stack[heap[uv].body.level];
      ghost var s := S();
      uvhead := Filter(uvhead, heap.Keys - {uv});
      heap := SetBody(heap, th, t.(openupval := t.openupval[1..]));
      assert S() == CutOne(s, th);
      if dead {
        heap := heap - {uv};
      } else {
        heap := SetBody(heap, uv, UpClosed(v));
        assert S() == ClosedOne(s, th);
        LinkUpvalue(uv, v);
      }
    }

    // ----- sweeping

    /** sweeplist over a list without threads; returns what stays on the list. */
    method SweepChain(l: seq<Addr>) returns (kept: seq<Addr>)
      requires NoDup(l) && forall a :: a in l ==> a in heap
      modifies `heap
      ensures heap == SweepList(old(S()), l)
      ensures kept == Filter(l, heap.Keys)
    {
      kept := [];
      var i := 0;
      ghost var s := S();
      while i < |l|
        invariant 0 <= i <= |l|
        invariant heap == SweepList(s, l[..i])
        invariant kept == Filter(l[..i], heap.Keys)
        invariant S() == s.(heap := heap)
      {
        var curr := l[i];
        SweepListStep(s, l, i);
        if heap[curr].mark == White(!white) && !heap[curr].fixed {
          heap := heap - {curr};
        } else {
          heap := SetMark(heap, curr, White(white));
          kept := kept + [curr];
        }
        i := i + 1;
      }
      assert l[..|l|] == l;
    }

    method SweepStringBucket(i: nat)
      requires i < |strt| && NoDup(strt[i]) && forall a :: a in strt[i] ==> a in heap
      modifies `heap, `strt
      ensures S() == SweepBucket(old(S()), i)
    {
      var kept := SweepChain(strt[i]);
      strt := strt[i := kept];
    }

    method SweepOpenUpvals(th: Addr)
      requires IsThread(heap, th)
      requires var l := heap[th].body.openupval; NoDup(l) && th !in l && forall a :: a in l ==> a in heap
      modifies `heap, `uvhead
      ensures S() == SweepOpen(old(S()), th)
    {
      var kept := SweepChain(heap[th].body.openupval);
      uvhead := Filter(uvhead, heap.Keys);
      heap := SetBody(heap, th, heap[th].body.(openupval := kept));
    }

    method SweepRootgc(count: nat)
      requires Inv(S()) && phase == Sweep
      modifies `rootgc, `sweepgc, `heap, `gray, `uvhead
      ensures S() == SweepRoot(old(S()), count)
    {
      hide Inv, SweepRoot, SweepRootOne, KeepsLive;
      var n := count;
      while n > 0 && sweepgc < |rootgc|
        invariant 0 <= n <= count && Inv(S()) && phase == Sweep
        invariant SweepRoot(old(S()), count) == SweepRoot(S(), n)
        invariant S() == old(S()).(heap := heap, rootgc := rootgc, sweepgc := sweepgc, gray := gray, uvhead := uvhead)
        decreases n
      {
        SweepRootOneKeeps(S());
        RootUnroll(S(), n);
        SweepNext();
        n := n - 1;
      }
      RootUnroll(S(), n);
    }

    /** The body of sweeplist for rootgc. */
    method SweepNext()
      requires Inv(S()) && phase == Sweep && sweepgc < |rootgc| && rootgc[sweepgc] in heap
      modifies `rootgc, `sweepgc, `heap, `gray, `uvhead
      ensures S() == SweepRootOne(old(S()))
    {
      hide Inv, Close, SweepOpen, KeepsLive;
      ghost var s := S();
      var curr := rootgc[sweepgc];
      OpenSweptFirst(s, curr);
      if heap[curr].body.Thread? {
        OpenChain(s, curr);
        SweepOpenUpvals(curr);
      }
      if heap[curr].mark == White(!white) && !heap[curr].fixed {
        assert Dead(S(), curr);
        UnchainKeeps(S(), curr);
        ghost var s1 := S();
        rootgc := rootgc[..sweepgc] + rootgc[sweepgc + 1..];
        if heap[curr].body.Thread? {
          CloseUpvals(curr, 0, {curr});
        } else {
          NotThreadClose(S(), curr);
        }
        heap := heap - {curr};
        assert S() == EraseRoot(s1);
      } else {
        ghost var s1 := S();
        heap := SetMark(heap, curr, White(white));
        sweepgc := sweepgc + 1;
        assert S() == PassRoot(s1);
      }
    }

    // ----- the state machine

    method SingleStep()
      requires Inv(S())
      modifies this
      ensures Defined(old(S())) && S() == GcSweep.SingleStep(old(S())) && keys == ClearedStep(old(S()), old(keys))
    {
      hide Inv, GcSweep.SingleStep, ClearedStep, Defined;
      StepDefined(S());
      StepKeys(S(), keys);
      match phase {
        case Pause => PauseStep();
        case Propagate => MarkStep();
        case SweepString => SweepStringStep();
        case Sweep => SweepStep();
        case Finalize => FinalizeStep();
      }
    }

    method PauseStep()
      requires Inv(S()) && phase == Pause
      modifies `heap, `gray, `grayagain, `phase
      ensures Defined(old(S())) && S() == GcSweep.SingleStep(old(S()))
    {
      hide Inv, GcMark.MarkRoot;
      StepDefined(S());
      MarkRoot();
    }

    method FinalizeStep()
      requires Inv(S()) && phase == Finalize
      modifies `phase
      ensures Defined(old(S())) && S() == GcSweep.SingleStep(old(S()))
    {
      hide Inv;
      StepDefined(S());
      phase := Pause;
    }

    /** A step of the mark phase. */
    method MarkStep()
      requires Inv(S()) && phase == Propagate
      modifies this
      ensures Defined(old(S())) && S() == GcSweep.SingleStep(old(S())) && keys == ClearedStep(old(S()), old(keys))
    {
      hide Inv, GcMark.PropagateMark, GcSweep.Atomic, ClearedKey, ClearedAtomic;
      StepDefined(S());
      if gray != [] {
        GrayInHeap(S());
        PropagateMark();
      } else {
        Atomic();
      }
    }

    method SweepStringStep()
      requires Inv(S()) && phase == SweepString
      modifies `heap, `strt, `sweepstr, `phase
      ensures Defined(old(S())) && S() == GcSweep.SingleStep(old(S()))
    {
      hide Inv, SweepBucket;
      StepDefined(S());
      BucketChain(S(), sweepstr);
      BucketFields(S(), sweepstr);
      SweepStringBucket(sweepstr);
      sweepstr := sweepstr + 1;
      if sweepstr >= |strt| {
        phase := Sweep;
      }
    }

    method SweepStep()
      requires Inv(S()) && phase == Sweep
      modifies `rootgc, `sweepgc, `heap, `gray, `uvhead, `phase
      ensures Defined(old(S())) && S() == GcSweep.SingleStep(old(S()))
    {
      hide Inv, SweepRoot;
      StepDefined(S());
      SweepRootgc(GCSWEEPMAX);
      if sweepgc >= |rootgc| {
        phase := Finalize;
      }
    }

    /** One step of a collection: it keeps the invariant, makes progress and is invisible to the program. */
    method Advance(ghost s0: State)
      requires Inv(S()) && phase != Pause && SameToProgram(s0, S())
      modifies this
      ensures Inv(S()) && SameToProgram(s0, S()) && Progress(old(S()), S())
      ensures old(Exact(S())) ==> Exact(S())
      ensures old(phase) == SweepString || old(phase) == Sweep ==> phase != Pause && phase != Propagate
    {
      hide Inv, SameToProgram, Exact, Progress, GcSweep.SingleStep;
      ghost var s := S();
      StepKeeps(s);
      StepSafe(s);
      StepProgress(s);
      if Exact(s) { StepExact(s); }
      if phase == SweepString || phase == Sweep { SweepStays(s); }
      SameTrans(s0, s, GcSweep.SingleStep(s));
      SingleStep();
    }

    method StartMark(ghost s0: State)
      requires Inv(S()) && phase == Finalize && SameToProgram(s0, S())
      modifies this
      ensures Inv(S()) && Exact(S()) && SameToProgram(s0, S())
    {
      assert IsThread(heap, mainthread) by { hide SameToProgram; Parts(S()); }
      hide Inv, SameToProgram, Exact, GcMark.MarkRoot;
      MarkRootKeeps(S());
      MarkRootExact(S());
      MarkRootSame(S());
      SameTrans(s0, S(), GcMark.MarkRoot(S()));
      MarkRoot();
    }

    /** luaC_fullgc: from any state of the collector it ends with exactly the reachable objects and those that were
        fixed before, and they look the same to the program. */
    method FullGc()
      requires Inv(S())
      modifies this
      ensures Inv(S()) && phase == Pause
      ensures SameToProgram(old(S()), S())
      ensures forall a :: a in heap <==> Reachable(S(), a) || (a in old(heap) && old(heap)[a].fixed)
      ensures forall r :: IsRoot(S(), r) ==> r in heap
      ensures forall a, c :: Reachable(S(), a) && Mentions(heap, a, c) ==> c in heap
    {
      hide Inv, Reachable, SameToProgram, Exact, Whites, Unswept, Progress, IsRoot, Mentions;
      ghost var s0 := S();
      SameSelf(s0);
      if phase == Pause || phase == Propagate {
        AbandonKeeps(s0);
        AbandonSame(s0);
        sweepstr := 0;
        sweepgc := 0;
        gray := [];
        grayagain := [];
        phase := SweepString;
      }
      FinishSweep(s0);
      StartMark(s0);
      MarkAndSweep(s0);
      ExactEnd(S());
      StillFixed(s0, S());
      ReachableMentions(S());
    }

    /** Any pending sweep is finished. */
    method FinishSweep(ghost s0: State)
      requires Inv(S()) && phase != Pause && phase != Propagate && SameToProgram(s0, S())
      modifies this
      ensures Inv(S()) && phase == Finalize && SameToProgram(s0, S())
    {
      hide Inv, SameToProgram, Exact, Whites, Unswept;
      while phase != Finalize
        invariant Inv(S()) && phase != Pause && phase != Propagate
        invariant SameToProgram(s0, S())
        decreases Rank(phase), MarkLeft(S()), Remaining(S())
      {
        Advance(s0);
      }
    }

    /** A whole collection, from a new mark phase on. */
    method MarkAndSweep(ghost s0: State)
      requires Inv(S()) && Exact(S()) && SameToProgram(s0, S())
      modifies this
      ensures Inv(S()) && Exact(S()) && phase == Pause && SameToProgram(s0, S())
    {
      hide Inv, SameToProgram, Exact, Whites, Unswept;
      while phase != Pause
        invariant Inv(S()) && Exact(S())
        invariant SameToProgram(s0, S())
        decreases Rank(phase), MarkLeft(S()), Remaining(S())
      {
        Advance(s0);
      }
    }
  }

  /** The phase machine of singlestep is defined here. */
  ghost predicate Defined(s: State) {
    && IsThread(s.heap, s.mainthread)
    && (s.phase == Propagate ==> Queued(s))
    && (s.phase == SweepString ==> s.sweepstr < |s.strt|)
  }

  lemma StepDefined(s: State)
    requires Inv(s)
    ensures Defined(s)
  {
    StepLegal(s);
    hide Inv, Queued;
  }

  lemma StepKeys(s: State, keys: KeyMap)
    requires Defined(s)
    ensures s.phase != Propagate ==> ClearedStep(s, keys) == keys
  {
    hide ClearedKey, ClearedAtomic;
  }

  lemma AllUnroll(s: State, keys: KeyMap)
    requires Queued(s) && s.gray != []
    ensures s.gray[0] in s.heap && Queued(GcMark.PropagateMark(s))
    ensures GcMark.PropagateAll(s) == GcMark.PropagateAll(GcMark.PropagateMark(s))
    ensures ClearedAll(s, keys) == ClearedAll(GcMark.PropagateMark(s), ClearedKey(s, keys))
  {
    PropagateQueued(s);
    hide GcMark.PropagateMark, ClearedKey;
  }

  lemma AllDone(s: State, keys: KeyMap)
    requires Queued(s) && s.gray == []
    ensures GcMark.PropagateAll(s) == s && ClearedAll(s, keys) == keys
  {
  }

  /** The state atomic reaches before it traverses the threads again. */
  ghost function Twice(s: State): State
    requires Queued(s)
  {
    var s1 := GcMark.RemarkUpvals(s, s.uvhead);
    RemarkQueued(s, s.uvhead);
    var s2 := GcMark.PropagateAll(s1);
    MarkAllQueued(s2, [s.running] + OptRefs(s.mt));
    GcMark.PropagateAll(MarkAll(s2, [s.running] + OptRefs(s.mt)))
  }

  ghost function TwiceCleared(s: State, keys: KeyMap): KeyMap
    requires Queued(s)
  {
    var s1 := GcMark.RemarkUpvals(s, s.uvhead);
    RemarkQueued(s, s.uvhead);
    var s2 := GcMark.PropagateAll(s1);
    MarkAllQueued(s2, [s.running] + OptRefs(s.mt));
    ClearedAll(MarkAll(s2, [s.running] + OptRefs(s.mt)), ClearedAll(s1, keys))
  }

  lemma AtomicUnfold(s: State, keys: KeyMap)
    requires Queued(s)
    ensures var t := Twice(s).(gray := Twice(s).grayagain, grayagain := []);
            Queued(t) && AtomicMark(s) == GcMark.PropagateAll(t) &&
              ClearedAtomic(s, keys) == ClearedAll(t, TwiceCleared(s, keys))
  {
    hide GcMark.PropagateAll, GcMark.RemarkUpvals, MarkAll, Queued, ClearedAll;
    var s1 := GcMark.RemarkUpvals(s, s.uvhead);
    RemarkQueued(s, s.uvhead);
    var s2 := GcMark.PropagateAll(s1);
    MarkAllQueued(s2, [s.running] + OptRefs(s.mt));
    QueuedAgain(GcMark.PropagateAll(MarkAll(s2, [s.running] + OptRefs(s.mt))));
  }

  lemma RootUnroll(s: State, n: nat)
    requires Inv(s) && s.phase == Sweep
    ensures n > 0 && s.sweepgc < |s.rootgc| ==>
      SweepRoot(s, n) == SweepRoot(SweepRootOne(s), n - 1) && s.rootgc[s.sweepgc] in s.heap
    ensures n == 0 || s.sweepgc >= |s.rootgc| ==> SweepRoot(s, n) == s
  {
    if s.sweepgc < |s.rootgc| { RootMember(s); }
    hide Inv, SweepRootOne;
  }

  lemma HeadOpen(s: State, th: Addr, out: set<Addr>)
    requires Inv(s, out) && IsThread(s.heap, th)
    ensures s.heap[th].body.openupval != [] ==> OpenOn(s.heap, s.heap[th].body.openupval[0], th)
  {
    if s.heap[th].body.openupval != [] { OpenElement(s.heap, th, 0); }
  }

  lemma OpenChain(s: State, th: Addr)
    requires Inv(s) && IsThread(s.heap, th)
    ensures var l := s.heap[th].body.openupval; NoDup(l) && th !in l && forall a :: a in l ==> a in s.heap
  {
    assert OpenList(s.heap, th);
    NotAnUpvalue(s.heap, th, th);
    var l := s.heap[th].body.openupval;
    hide Inv;
    forall i, j | 0 <= i < j < |l| ensures l[i] != l[j] { assert Level(s.heap, l[i]) > Level(s.heap, l[j]); }
    forall a | a in l ensures a in s.heap { assert OpenOn(s.heap, a, th); }
  }

  lemma BucketChain(s: State, i: nat)
    requires Inv(s) && i < |s.strt|
    ensures NoDup(s.strt[i]) && forall a :: a in s.strt[i] ==> a in s.heap
  {
  }

  lemma SameSelf(s: State)
    requires Inv(s)
    ensures SameToProgram(s, s)
  {
    ReachableLive(s);
  }

  lemma StillFixed(s: State, r: State)
    requires SameToProgram(s, r)
    ensures forall a :: (a in s.heap && s.heap[a].fixed) <==> (a in r.heap && r.heap[a].fixed)
  {
    hide View, Roots, Reachable;
    forall a ensures (a in s.heap && s.heap[a].fixed) <==> (a in r.heap && r.heap[a].fixed) {
      assert Fixed(s.heap, a) <==> Fixed(r.heap, a);
    }
  }

  lemma SameTrans(s: State, t: State, r: State)
    requires SameToProgram(s, t) && SameToProgram(t, r)
    ensures SameToProgram(s, r)
  {
    hide View, Roots, Reachable;
  }

  lemma AbandonSame(s: State)
    requires Inv(s) && (s.phase == Pause || s.phase == Propagate)
    ensures SameToProgram(s, Abandoned(s))
  {
    SameHeapKeeps(s, Abandoned(s));
    KeepsLiveSame(s, Abandoned(s));
  }

  lemma MarkRootSame(s: State)
    requires Inv(s) && IsThread(s.heap, s.mainthread)
    ensures SameToProgram(s, GcMark.MarkRoot(s))
  {
    MarkRootBodies(s);
    hide Inv, MarkRoot;
    SameBodiesSame(s, GcMark.MarkRoot(s));
  }

  lemma SweepStays(s: State)
    requires Inv(s) && s.phase != Pause && s.phase != Propagate && s.phase != Finalize
    ensures Legal(s, Step) && GcSweep.SingleStep(s).phase != Pause && GcSweep.SingleStep(s).phase != Propagate
  {
    hide Inv;
    SweepStepPhase(s);
  }
}
