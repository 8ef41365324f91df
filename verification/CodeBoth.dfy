/** The end of luaK_posfix for `and` and `or`: the second operand's code follows the first's. */
module CodeBoth {
  import opened LuaCode
  import opened CodeExec
  import opened CodeLists
  import opened CodeMeaning
  import opened CodeState
  import opened CodeEvolve
  import opened CodeLoad
  import opened CodeClose
  import opened CodeExp2
  import opened CodeCond
  import opened CodeGoIf

  /** Only pending jumps at or after pc matter to a run from pc. */
  lemma {:induction false} ExecMore(x: Ctx, code: seq<Instr>, p: set<nat>, p2: set<nat>, pc: nat, r: Regs, end: nat)
    requires forall j :: j >= pc ==> (j in p <==> j in p2)
    ensures Exec(x, code, p, pc, r, end) == Exec(x, code, p2, pc, r, end)
    decreases if pc < end then end - pc else 0, 1
  {
    if pc < end && pc < |code| {
      var i := code[pc];
      if IsTest(i) {
        if pc + 1 < end {
          if Passes(x, i, r) {
            TakeMore(x, code, p, p2, pc + 1, Taken(x, i, r), end);
          } else {
            ExecMore(x, code, p, p2, pc + 2, r, end);
          }
        }
      } else if i.Jmp? {
        TakeMore(x, code, p, p2, pc, r, end);
      } else if !i.Return? {
        ExecMore(x, code, p, p2, pc + Size(i), Stored(x, i, r), end);
      }
    }
  }

  lemma {:induction false} TakeMore(x: Ctx, code: seq<Instr>, p: set<nat>, p2: set<nat>, j: nat, r: Regs, end: nat)
    requires forall i :: i >= j ==> (i in p <==> i in p2)
    ensures Take(x, code, p, j, r, end) == Take(x, code, p2, j, r, end)
    decreases if j < end then end - j else 0, 0
  {
    if j !in p && j < Target(code, j) <= end && j < end {
      ExecMore(x, code, p, p2, Target(code, j), r, end);
    }
  }

  /** The first operand's remaining exits. */
  function Own(d1: Desc, truth: bool): seq<nat> { if truth then d1.f else d1.t }

  function BothDesc(d1: Desc, d2: Desc, truth: bool): Desc {
    if truth then Desc(d2.k, d2.t, d2.f + d1.f) else Desc(d2.k, d2.t + d1.t, d2.f)
  }

  /** The first operand has become control, and the second has been compiled after it. */
  ghost predicate InTurn(x: Ctx, fs0: FS, fs1: FS, d1: Desc, s: Sem, fs2: FS, d2: Desc, b: Expr, k: seq<Value>,
                         truth: bool) {
    && Correct(x, fs0, fs1, d1, s) && d1.k == VCond(truth) && (if truth then d1.t else d1.f) == []
    && Correct(x, fs1, fs2, d2, Coding(b, k))
    && fs1.freereg == fs0.freereg
    && fs0.nactvar <= fs0.freereg && Scoped(b, fs0.nactvar)
  }

  /** What both operands' shapes say about the lists that are joined. */
  lemma TurnLists(x: Ctx, fs0: FS, fs1: FS, d1: Desc, s: Sem, fs2: FS, d2: Desc, b: Expr, k: seq<Value>, truth: bool)
    requires InTurn(x, fs0, fs1, d1, s, fs2, d2, b, k, truth)
    ensures WF(fs1, d1) && WF(fs2, d2) && End(fs1, d1) == |fs1.code| <= End(fs2, d2)
    ensures Evolves(fs1.code, Set(fs1.jpc), fs2.code, Pend(fs2, d2), |fs1.code|)
    ensures var q := Own(d1, truth);
            && Pending(fs1.code, q) && Below(q, |fs1.code|) && Pend(fs1, d1) == Set(fs1.jpc) + Set(q)
            && (forall j :: j in q ==> j !in fs1.jpc && j !in Pend(fs2, d2))
    ensures fs2.nactvar == fs1.nactvar && fs1.k <= fs2.k
  {
    hide Runs, Evolves, Pending, KindOK;
    Split(fs1, d1);
    assert [] + d1.f == d1.f && d1.t + [] == d1.t;
    var q := Own(d1, truth);
    forall j | j in q ensures j !in fs1.jpc && j !in Pend(fs2, d2) {
      assert j in d1.t + d1.f;
      assert EvolvesAt(fs1.code, Set(fs1.jpc), fs2.code, Pend(fs2, d2), |fs1.code|, j) by {
        EvolvesHas(fs1.code, Set(fs1.jpc), fs2.code, Pend(fs2, d2), |fs1.code|, j);
      }
    }
  }

  lemma EvolvesHas(code: seq<Instr>, p: set<nat>, code2: seq<Instr>, p2: set<nat>, n: nat, j: nat)
    requires Evolves(code, p, code2, p2, n) && j < n
    ensures EvolvesAt(code, p, code2, p2, n, j)
  {
  }

  lemma BothLists(d1: Desc, d2: Desc, truth: bool, jpc: seq<nat>)
    requires NoDup(d2.t + d2.f + jpc) && NoDup(d2.t) && NoDup(d2.f) && NoDup(jpc) && NoDup(Own(d1, truth))
    requires (forall j :: j in d2.t + d2.f ==> j !in jpc) && (forall j :: j in d2.t ==> j !in d2.f)
    requires forall j :: j in Own(d1, truth) ==> j !in d2.t + d2.f + jpc
    ensures var dj := BothDesc(d1, d2, truth);
            && NoDup(dj.t + dj.f + jpc)
            && (forall j :: j in dj.t + dj.f + jpc <==> j in Own(d1, truth) || j in d2.t + d2.f + jpc)
  {
    var q, dj := Own(d1, truth), BothDesc(d1, d2, truth);
    assert forall j :: j in d2.t || j in d2.f ==> j in d2.t + d2.f;
    assert forall j :: j in d2.t || j in d2.f || j in jpc <==> j in d2.t + d2.f + jpc;
    NoDupConcat(d2.f, q);
    NoDupConcat(d2.t, q);
    NoDupConcat(dj.t, dj.f);
    NoDupConcat(dj.t + dj.f, jpc);
  }

  lemma TurnMoves(x: Ctx, fs0: FS, fs1: FS, d1: Desc, s: Sem, fs2: FS, d2: Desc, b: Expr, k: seq<Value>, truth: bool)
    requires InTurn(x, fs0, fs1, d1, s, fs2, d2, b, k, truth)
    ensures Moves(fs1, d1, fs2, BothDesc(d1, d2, truth))
    ensures Pend(fs2, BothDesc(d1, d2, truth)) == Pend(fs2, d2) + Set(Own(d1, truth))
    ensures Untouched(fs1.code, fs2.code, Own(d1, truth))
    ensures End(fs2, BothDesc(d1, d2, truth)) == End(fs2, d2)
  {
    hide InTurn, Evolves, Pending;
    TurnLists(x, fs0, fs1, d1, s, fs2, d2, b, k, truth);
    var q, dj, n := Own(d1, truth), BothDesc(d1, d2, truth), |fs1.code|;
    Split(fs1, d1);
    Split(fs2, d2);
    PendingJumps(fs1.code, q);
    PendingJumps(fs1.code, fs1.jpc);
    PendingJumps(fs2.code, d2.t);
    PendingJumps(fs2.code, d2.f);
    PendingJumps(fs2.code, fs2.jpc);
    PendingJumps(fs2.code, All(fs2, d2));
    assert forall j :: j in All(fs2, d2) ==> j in Pend(fs2, d2);
    BothLists(d1, d2, truth, fs2.jpc);
    EvolvesMore(fs1.code, Set(fs1.jpc), fs2.code, Pend(fs2, d2), n, q);
    EvolvesUntouched(fs1.code, Set(fs1.jpc), fs2.code, Pend(fs2, d2), n, q);
    StillJumps(fs1.code, Set(fs1.jpc) + Set(q), fs2.code, Pend(fs2, d2) + Set(q), n, q);
    SamePart(fs1.code, fs2.code, q);
    PendingMove(fs1.code, q, fs2.code, q);
    assert Pend(fs2, dj) == Pend(fs2, d2) + Set(q);
    BothPending(fs2.code, q, All(fs2, d2), All(fs2, dj));
    BothKind(fs2, d1, d2, truth);
  }

  lemma BothPending(code: seq<Instr>, q: seq<nat>, l: seq<nat>, l2: seq<nat>)
    requires Pending(code, q) && Pending(code, l) && NoDup(l2) && forall j :: j in l2 ==> j in q || j in l
    ensures Pending(code, l2)
  {
  }

  lemma BothKind(fs2: FS, d1: Desc, d2: Desc, truth: bool)
    requires KindOK(fs2, d2)
    ensures KindOK(fs2, BothDesc(d1, d2, truth)) && End(fs2, BothDesc(d1, d2, truth)) == End(fs2, d2)
  {
  }

  /** An outcome of the second operand is one of both. */
  lemma BothGood(x: Ctx, fs2: FS, d1: Desc, d2: Desc, truth: bool, w: Way, free: nat, r: Regs, r2: Regs, o: Out)
    requires Good(x, fs2, d2, w, free, r2, o) && Same(r, r2, free)
    requires forall j :: j in Own(d1, truth) ==> j !in Pend(fs2, d2)
    requires (forall j :: j in d2.t ==> j !in d2.f) && (forall j :: j in d2.t + d2.f ==> j !in fs2.jpc)
    ensures Good(x, fs2, BothDesc(d1, d2, truth), w, free, r, o)
  {
    var dj := BothDesc(d1, d2, truth);
    if o.Exit? {
      assert o.pc in All(fs2, d2) && o.pc in Pend(fs2, d2);
      assert o.pc in d2.t || o.pc in d2.f ==> o.pc in d2.t + d2.f;
    }
  }

  lemma TurnFall(x: Ctx, fs0: FS, fs1: FS, d1: Desc, s: Sem, fs2: FS, d2: Desc, b: Expr, k: seq<Value>, truth: bool,
                 r: Regs, r2: Regs)
    requires InTurn(x, fs0, fs1, d1, s, fs2, d2, b, k, truth) && Same(r, r2, fs0.freereg)
    requires 0 <= End(fs2, d2)
    requires Pend(fs2, BothDesc(d1, d2, truth)) == Pend(fs2, d2) + Set(Own(d1, truth))
    ensures Good(x, fs2, BothDesc(d1, d2, truth), Coded(x.ops, b, k, r, Nothing), fs0.freereg, r,
                 Exec(x, fs2.code, Pend(fs2, BothDesc(d1, d2, truth)), |fs1.code|, r2, End(fs2, d2)))
  {
    hide Good, WF, Evolves, Coded, Pend, Exec, HeldBy;
    TurnLists(x, fs0, fs1, d1, s, fs2, d2, b, k, truth);
    Split(fs2, d2);
    CodedSame(x.ops, b, k, r, r2, Nothing, fs0.nactvar);
    assert Runs(x, fs1, fs2, d2, Coding(b, k), r2);
    ExecMore(x, fs2.code, Pend(fs2, BothDesc(d1, d2, truth)), Pend(fs2, d2), |fs1.code|, r2, End(fs2, d2));
    BothGood(x, fs2, d1, d2, truth, Coded(x.ops, b, k, r, Nothing), fs0.freereg, r, r2,
             Exec(x, fs2.code, Pend(fs2, d2), |fs1.code|, r2, End(fs2, d2)));
  }

  lemma TurnLeave(x: Ctx, fs0: FS, fs1: FS, d1: Desc, s: Sem, fs2: FS, d2: Desc, b: Expr, k: seq<Value>, truth: bool,
                  r: Regs, r2: Regs, j: nat)
    requires InTurn(x, fs0, fs1, d1, s, fs2, d2, b, k, truth) && Same(r, r2, fs0.freereg) && j in fs1.jpc
    requires 0 <= End(fs2, d2)
    requires Pend(fs2, BothDesc(d1, d2, truth)) == Pend(fs2, d2) + Set(Own(d1, truth))
    ensures Good(x, fs2, BothDesc(d1, d2, truth), Coded(x.ops, b, k, r, HeldBy(fs1.code, j, r2)), fs0.freereg, r,
                 Leave(x, fs2.code, Pend(fs2, BothDesc(d1, d2, truth)), j, r2, End(fs2, d2)))
  {
    hide Good, WF, Evolves, Coded, Pend, Exec, HeldBy;
    TurnLists(x, fs0, fs1, d1, s, fs2, d2, b, k, truth);
    Split(fs2, d2);
    Split(fs1, d1);
    var h := HeldBy(fs1.code, j, r2);
    CodedSame(x.ops, b, k, r, r2, h, fs0.nactvar);
    assert Runs(x, fs1, fs2, d2, Coding(b, k), r2);
    EvolvesHas(fs1.code, Set(fs1.jpc), fs2.code, Pend(fs2, d2), |fs1.code|, j);
    if j !in Pend(fs2, d2) && Target(fs2.code, j) <= End(fs2, d2) {
      ExecMore(x, fs2.code, Pend(fs2, BothDesc(d1, d2, truth)), Pend(fs2, d2), Target(fs2.code, j),
               Carry(fs2.code, j, r2), End(fs2, d2));
    }
    BothGood(x, fs2, d1, d2, truth, Coded(x.ops, b, k, r, h), fs0.freereg, r, r2,
             Leave(x, fs2.code, Pend(fs2, d2), j, r2, End(fs2, d2)));
  }

  lemma TurnExit(x: Ctx, fs1: FS, d1: Desc, fs2: FS, d2: Desc, truth: bool, w: Way, free: nat, r: Regs, o: Out)
    requires Good(x, fs1, d1, w, free, r, o) && o.Exit? && o.pc in Own(d1, truth)
    requires (if truth then d1.t else d1.f) == []
    requires Untouched(fs1.code, fs2.code, Own(d1, truth))
    requires forall j :: j in Own(d1, truth) ==> j !in Pend(fs2, d2)
    ensures Good(x, fs2, BothDesc(d1, d2, truth), w, free, r, o) && w.Exits?
    ensures o.pc in Pend(fs2, BothDesc(d1, d2, truth))
  {
    hide Carries;
    HeldSame(fs1.code, fs2.code, o.pc, o.r, Own(d1, truth));
    assert forall j :: j in d2.t ==> j in All(fs2, d2);
    assert o.pc in All(fs2, BothDesc(d1, d2, truth));
  }

  lemma MeansFollowing(ops: Ops, s: Sem, b: Expr, k: seq<Value>, r: Regs, h: Held)
    ensures var w := Means(ops, s, r, h);
            Means(ops, Following(s, b, k), r, h) == if w.Falls? then Coded(ops, b, k, r, w.h) else w
  {
  }

  lemma BothStep(x: Ctx, fs0: FS, fs1: FS, d1: Desc, s: Sem, fs2: FS, d2: Desc, b: Expr, k: seq<Value>, truth: bool)
    requires InTurn(x, fs0, fs1, d1, s, fs2, d2, b, k, truth)
    ensures Correct(x, fs0, fs2, BothDesc(d1, d2, truth), Following(s, b, k))
  {
    hide InTurn, Good, Evolves, WF, Means, Exec, Leave, BothDesc, Pend, Untouched, HeldBy;
    var dj, s2 := BothDesc(d1, d2, truth), Following(s, b, k);
    TurnMoves(x, fs0, fs1, d1, s, fs2, d2, b, k, truth);
    TurnLists(x, fs0, fs1, d1, s, fs2, d2, b, k, truth);
    assert Correct(x, fs0, fs1, d1, s) && d1.k == VCond(truth) && (if truth then d1.t else d1.f) == [] by {
      TurnFirst(x, fs0, fs1, d1, s, fs2, d2, b, k, truth);
    }
    forall r: Regs, h: Held, o: Out
      ensures StepGood(x, fs1, d1, Means(x.ops, s, r, h), fs2, dj, Means(x.ops, s2, r, h), fs0.freereg, r, o)
    {
      if Good(x, fs1, d1, Means(x.ops, s, r, h), fs0.freereg, r, o) {
        TurnGood(x, fs0, fs1, d1, s, fs2, d2, b, k, truth, r, h, o);
      }
    }
    Transfer(x, fs0, fs1, d1, s, fs2, dj, s2);
  }

  lemma TurnFirst(x: Ctx, fs0: FS, fs1: FS, d1: Desc, s: Sem, fs2: FS, d2: Desc, b: Expr, k: seq<Value>, truth: bool)
    requires InTurn(x, fs0, fs1, d1, s, fs2, d2, b, k, truth)
    ensures Correct(x, fs0, fs1, d1, s) && d1.k == VCond(truth) && (if truth then d1.t else d1.f) == []
  {
    hide Correct;
  }

  lemma TurnGood(x: Ctx, fs0: FS, fs1: FS, d1: Desc, s: Sem, fs2: FS, d2: Desc, b: Expr, k: seq<Value>, truth: bool,
                 r: Regs, h: Held, o: Out)
    requires InTurn(x, fs0, fs1, d1, s, fs2, d2, b, k, truth)
    requires Good(x, fs1, d1, Means(x.ops, s, r, h), fs0.freereg, r, o)
    ensures 0 <= End(fs1, d1) && 0 <= End(fs2, BothDesc(d1, d2, truth))
    ensures Good(x, fs2, BothDesc(d1, d2, truth), Means(x.ops, Following(s, b, k), r, h), fs0.freereg, r,
                 Cont(x, fs2.code, Pend(fs2, BothDesc(d1, d2, truth)), End(fs1, d1), o,
                      End(fs2, BothDesc(d1, d2, truth))))
  {
    hide InTurn, Good, Evolves, WF, Means, Exec, BothDesc, Pend, Untouched, Same, HeldBy, Coded;
    TurnMoves(x, fs0, fs1, d1, s, fs2, d2, b, k, truth);
    TurnLists(x, fs0, fs1, d1, s, fs2, d2, b, k, truth);
    TurnFirst(x, fs0, fs1, d1, s, fs2, d2, b, k, truth);
    MeansFollowing(x.ops, s, b, k, r, h);
    var w := Means(x.ops, s, r, h);
    if o.Fall? {
      GoodFall(x, fs1, d1, w, fs0.freereg, r, o.r);
      TurnFall(x, fs0, fs1, d1, s, fs2, d2, b, k, truth, r, o.r);
    } else {
      GoodExit(x, fs1, d1, w, fs0.freereg, r, o);
      if o.pc in Own(d1, truth) {
        TurnExit(x, fs1, d1, fs2, d2, truth, w, fs0.freereg, r, o);
      } else {
        TurnLeave(x, fs0, fs1, d1, s, fs2, d2, b, k, truth, r, o.r, o.pc);
      }
    }
  }
}
