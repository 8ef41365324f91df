/** exp2reg: the exits of an expression are closed, so that its value is in a register on every path. */
module CodeClose {
  import opened LuaCode
  import opened CodeExec
  import opened CodeLists
  import opened CodeMeaning
  import opened CodeState
  import opened CodeEvolve
  import opened CodeLoad

  // ----- a comparison's own jump

  function Joined(fs: FS, d: Desc): Desc
    requires d.k.VJmp?
  {
    Desc(VFalse, d.t + [d.k.pc], d.f)
  }

  lemma EvolvesAbove(code: seq<Instr>, p: set<nat>, code2: seq<Instr>, p2: set<nat>, n: nat, p3: set<nat>)
    requires Evolves(code, p, code2, p2, n)
    requires forall i :: 0 <= i < n ==> (i in p2 <==> i in p3)
    ensures Evolves(code, p, code2, p3, n)
  {
    forall i | 0 <= i < n ensures EvolvesAt(code, p, code2, p3, n, i) {
      assert EvolvesAt(code, p, code2, p2, n, i);
    }
  }

  lemma JoinNoDup(t: seq<nat>, f: seq<nat>, pc: nat, n: nat)
    requires NoDup(t + f) && Below(t + f, n) && n <= pc
    ensures NoDup(t + [pc] + f)
  {
    var l, l2 := t + f, t + [pc] + f;
    forall i, j | 0 <= i < j < |l2| ensures l2[i] != l2[j] {
      if i < |t| { assert l[i] == l2[i] && l[i] in l; }
      if j < |t| { assert l[j] == l2[j]; }
      if i > |t| { assert l[i - 1] == l2[i]; }
      if j > |t| { assert l[j - 1] == l2[j] && l[j - 1] in l; }
    }
  }

  lemma JoinCode(fs: FS, d: Desc)
    requires WF(fs, d) && d.k.VJmp?
    ensures var fs2 := Chain(fs, d.t, [d.k.pc]);
            && |fs2.code| == |fs.code|
            && fs2.code[d.k.pc] == fs.code[d.k.pc]
            && fs2.code[d.k.pc - 1] == fs.code[d.k.pc - 1]
            && Evolves(fs.code, Set(d.t + d.f), fs2.code, Set(d.t + d.f), End(fs, d))
            && Untouched(fs.code, fs2.code, d.t + d.f)
            && Jumps(fs2.code, d.t + d.f)
  {
    hide Pending, Evolves;
    Split(fs, d);
    PendingJumps(fs.code, d.t + d.f);
    if d.t != [] { assert d.t[|d.t|-1] in d.t + d.f; }
    EvolvesConcat(fs.code, d.t, [d.k.pc], d.t + d.f, End(fs, d));
    ConcatUntouched(fs.code, d.t, [d.k.pc], d.t + d.f);
  }

  lemma JoinMoves(fs: FS, d: Desc)
    requires WF(fs, d) && d.k.VJmp? && !Chain(fs, d.t, [d.k.pc]).err
    ensures Moves(fs, d, Chain(fs, d.t, [d.k.pc]), Joined(fs, d))
  {
    var fs2, d2, n, q, pc := Chain(fs, d.t, [d.k.pc]), Joined(fs, d), End(fs, d), d.t + d.f, d.k.pc;
    JoinCode(fs, d);
    hide Pending, Evolves, Chain;
    Split(fs, d);
    assert All(fs, d) == q && All(fs2, d2) == d.t + [pc] + d.f;
    PendingJumps(fs.code, q);
    JoinNoDup(d.t, d.f, pc, n);
    EvolvesAbove(fs.code, Set(q), fs2.code, Set(q), n, Pend(fs2, d2));
    SamePart(fs.code, fs2.code, q);
    assert forall j :: j in All(fs2, d2) ==> j in q || j == pc;
    PendingMove(fs.code, q, fs2.code, All(fs2, d2));
  }

  lemma JoinGood(x: Ctx, fs: FS, d: Desc, w: Way, free: nat, r: Regs, r2: Regs)
    requires WF(fs, d) && d.k.VJmp?
    requires Same(r, r2, free) && w.Falls? && FallGood(x, fs, d, w.v, r2)
    ensures var fs2, d2 := Chain(fs, d.t, [d.k.pc]), Joined(fs, d);
            Good(x, fs2, d2, Branch(w, true, false), free, r,
                 Exec(x, fs2.code, Pend(fs2, d2), End(fs, d), r2, |fs.code|))
  {
    var fs2, d2, n := Chain(fs, d.t, [d.k.pc]), Joined(fs, d), End(fs, d);
    JoinCode(fs, d);
    hide Pending, Evolves, Chain;
    var i := fs.code[n];
    assert d2.t[|d.t|] == d.k.pc;
    assert d.k.pc in All(fs2, d2);
    if Passes(x, i, r2) {
      assert Exec(x, fs2.code, Pend(fs2, d2), n, r2, n + 2) == Exit(n + 1, r2);
    } else {
      assert Exec(x, fs2.code, Pend(fs2, d2), n, r2, n + 2) == Exec(x, fs2.code, Pend(fs2, d2), n + 2, r2, n + 2);
    }
  }

  lemma MeansBranching(ops: Ops, s: Sem, cond: bool, keeps: bool, r: Regs, h: Held)
    ensures Means(ops, Branching(s, cond, keeps), r, h) == Branch(Means(ops, s, r, h), cond, keeps)
  {
  }

  /** After its jump has joined the true exits, a comparison falls through exactly when it is false. */
  lemma JoinStep(x: Ctx, fs0: FS, fs: FS, d: Desc, s: Sem)
    requires Correct(x, fs0, fs, d, s) && d.k.VJmp? && !Chain(fs, d.t, [d.k.pc]).err
    ensures Correct(x, fs0, Chain(fs, d.t, [d.k.pc]), Joined(fs, d), Branching(s, true, false))
  {
    hide Runs, Evolves, FallGood, Same, Exec, Pending, Means, StepGood, Chain, LandAt;
    var fs2, d2, s2 := Chain(fs, d.t, [d.k.pc]), Joined(fs, d), Branching(s, true, false);
    JoinMoves(fs, d);
    JoinCode(fs, d);
    Split(fs, d);
    assert LandAt(fs2.code, Pend(fs2, d2), [], End(fs, d)) by { LandNone(fs2.code, Pend(fs2, d2), End(fs, d)); }
    forall r: Regs, h: Held, o: Out
      ensures StepGood(x, fs, d, Means(x.ops, s, r, h), fs2, d2, Means(x.ops, s2, r, h), fs0.freereg, r, o)
    {
      var w := Means(x.ops, s, r, h);
      MeansBranching(x.ops, s, true, false, r, h);
      forall r2: Regs | w.Falls? && Same(r, r2, fs0.freereg) && FallGood(x, fs, d, w.v, r2)
        ensures Good(x, fs2, d2, Branch(w, true, false), fs0.freereg, r,
                     Exec(x, fs2.code, Pend(fs2, d2), End(fs, d), r2, End(fs2, d2)))
      {
        JoinGood(x, fs, d, w, fs0.freereg, r, r2);
      }
      NotIn(d.t, d.f, d.k.pc, End(fs, d));
      EmitGood(x, fs, d, w, fs2, d2, Branch(w, true, false), fs0.freereg, r, o);
    }
    Transfer(x, fs0, fs, d, s, fs2, d2, s2);
  }

  lemma LandNone(code: seq<Instr>, p: set<nat>, n: nat)
    ensures LandAt(code, p, [], n)
  {
  }

  lemma NotIn(t: seq<nat>, f: seq<nat>, pc: nat, n: nat)
    requires Below(t + f, n) && n <= pc && forall j :: j in t ==> j !in f
    ensures forall j :: j in f ==> j !in t + [pc]
  {
    assert forall j :: j in f ==> j in t + f;
  }

  // ----- closing the lists

  /** Both lists of exits patched. */
  function ClosedCode(code: seq<Instr>, t: seq<nat>, f: seq<nat>, end: nat, reg: nat, pf: nat, pt: nat): seq<Instr> {
    PatchList(PatchList(code, f, end, reg, pf), t, end, reg, pt)
  }

  /** Where an exit goes after closing, and what it stores. */
  ghost predicate GoesTo(code: seq<Instr>, c: seq<Instr>, j: nat, end: nat, reg: nat, other: nat) {
    && Target(c, j) == (if Carries(code, j) then end else other)
    && forall r: Regs ::
         Carry(c, j, r) == if Carries(code, j) && reg != NO_REG then Write(r, reg, Reg(r, code[j-1].b)) else r
  }

  lemma PatchedGoes(code: seq<Instr>, l: seq<nat>, end: nat, reg: nat, other: nat, j: nat)
    requires Pending(code, l) && j in l
    ensures GoesTo(code, PatchList(code, l, end, reg, other), j, end, reg, other)
  {
    PatchedJump(code, l, end, reg, other, j);
    forall r: Regs
      ensures Carry(PatchList(code, l, end, reg, other), j, r) ==
              if Carries(code, j) && reg != NO_REG then Write(r, reg, Reg(r, code[j-1].b)) else r
    {
      PatchedCarry(code, l, end, reg, other, j, r);
    }
  }

  /** Patching one list leaves the jumps of the other alone. */
  lemma PatchOther(code: seq<Instr>, l: seq<nat>, vtarget: nat, reg: nat, dtarget: nat, q: seq<nat>)
    requires Pending(code, l) && Pending(code, q) && forall j :: j in q ==> j !in l
    ensures var c := PatchList(code, l, vtarget, reg, dtarget);
            && Untouched(code, c, q)
            && Pending(c, q)
            && forall j :: j in q ==> c[j] == code[j]
  {
    var c := PatchList(code, l, vtarget, reg, dtarget);
    PatchListAt(code, l, vtarget, reg, dtarget);
    forall j | j in q
      ensures c[j] == code[j]
      ensures j > 0 ==> Carries(c, j) == Carries(code, j) && (Carries(code, j) ==> c[j-1] == code[j-1])
    {
      assert PatchedAt(code, c, l, vtarget, reg, dtarget, j);
      if j > 0 {
        assert PatchedAt(code, c, l, vtarget, reg, dtarget, j - 1);
        if j - 1 in l { assert code[j-1].Jmp?; }
      }
    }
  }

  lemma PatchAbove(code: seq<Instr>, l: seq<nat>, vtarget: nat, reg: nat, dtarget: nat, n: nat)
    requires Pending(code, l) && Below(l, n) && n <= |code|
    ensures PatchList(code, l, vtarget, reg, dtarget)[n..] == code[n..]
  {
    var c := PatchList(code, l, vtarget, reg, dtarget);
    PatchListAt(code, l, vtarget, reg, dtarget);
    forall i | n <= i < |code| ensures c[i] == code[i] {
      assert PatchedAt(code, c, l, vtarget, reg, dtarget, i);
    }
  }

  lemma StillEnds(code: seq<Instr>, p: set<nat>, code2: seq<Instr>, p2: set<nat>, n: nat)
    requires Evolves(code, p, code2, p2, n) && Ends(code, n)
    ensures Ends(code2, n)
  {
    if n > 0 { assert EvolvesAt(code, p, code2, p2, n, n - 1); }
  }

  lemma CloseFirst(code: seq<Instr>, t: seq<nat>, f: seq<nat>, n: nat, end: nat, reg: nat, pf: nat)
    requires Pending(code, t) && Pending(code, f) && (forall j :: j in t ==> j !in f)
    requires Below(t, n) && Below(f, n) && n <= |code| && Ends(code, n) && n <= end
    requires forall j :: j in f && !Carries(code, j) ==> n <= pf
    ensures var c := PatchList(code, f, end, reg, pf);
            && Pending(c, t) && Ends(c, n) && c[n..] == code[n..]
            && Evolves(code, Set(f) + Set(t), c, {} + Set(t), n)
            && Untouched(code, c, t)
  {
    hide Evolves;
    var c := PatchList(code, f, end, reg, pf);
    EvolvesPatch(code, f, end, reg, pf, c, n);
    EvolvesMore(code, Set(f), c, {}, n, t);
    PatchOther(code, f, end, reg, pf, t);
    PatchAbove(code, f, end, reg, pf, n);
    StillEnds(code, Set(f), c, {}, n);
  }

  lemma CloseStatic(code: seq<Instr>, t: seq<nat>, f: seq<nat>, n: nat, end: nat, reg: nat, pf: nat, pt: nat)
    requires Pending(code, t) && Pending(code, f) && (forall j :: j in t ==> j !in f)
    requires Below(t, n) && Below(f, n) && n <= |code| && Ends(code, n) && n <= end
    requires forall j :: j in f && !Carries(code, j) ==> n <= pf
    requires forall j :: j in t && !Carries(code, j) ==> n <= pt
    ensures var c := ClosedCode(code, t, f, end, reg, pf, pt);
            && |c| == |code| && c[n..] == code[n..]
            && Evolves(code, Set(t) + Set(f), c, {}, n)
  {
    hide Evolves, Pending, Carries, Ends, PatchList;
    var c1, c := PatchList(code, f, end, reg, pf), ClosedCode(code, t, f, end, reg, pf, pt);
    CloseFirst(code, t, f, n, end, reg, pf);
    SameCarries(code, c1, t);
    EvolvesPatch(c1, t, end, reg, pt, c, n);
    PatchAbove(c1, t, end, reg, pt, n);
    assert {} + Set(t) == Set(t) && Set(f) + Set(t) == Set(t) + Set(f);
    EvolvesTrans(code, Set(f) + Set(t), c1, Set(t), c, {}, n, n);
  }

  lemma SameCarries(code: seq<Instr>, c: seq<Instr>, q: seq<nat>)
    requires Untouched(code, c, q)
    ensures forall j :: j in q ==> Carries(c, j) == Carries(code, j)
  {
  }

  lemma CloseGoesFalse(code: seq<Instr>, t: seq<nat>, f: seq<nat>, n: nat, end: nat, reg: nat, pf: nat, pt: nat, j: nat)
    requires Pending(code, t) && Pending(code, f) && (forall j :: j in t ==> j !in f)
    requires j in f
    ensures GoesTo(code, ClosedCode(code, t, f, end, reg, pf, pt), j, end, reg, pf)
  {
    hide PatchList;
    var c1, c := PatchList(code, f, end, reg, pf), ClosedCode(code, t, f, end, reg, pf, pt);
    PatchedGoes(code, f, end, reg, pf, j);
    PatchOther(code, f, end, reg, pf, t);
    StaysGone(c1, t, end, reg, pt, j);
  }

  /** A patched jump is not changed by patching a list it is not on. */
  lemma StaysGone(code: seq<Instr>, l: seq<nat>, end: nat, reg: nat, other: nat, j: nat)
    requires Pending(code, l) && j !in l && j < |code| && code[j].Jmp?
    ensures var c := PatchList(code, l, end, reg, other);
            Target(c, j) == Target(code, j) && forall r: Regs :: Carry(c, j, r) == Carry(code, j, r)
  {
    var c := PatchList(code, l, end, reg, other);
    PatchListAt(code, l, end, reg, other);
    assert PatchedAt(code, c, l, end, reg, other, j);
    if j > 0 {
      assert PatchedAt(code, c, l, end, reg, other, j - 1);
      if j - 1 in l { assert code[j-1].Jmp?; }
    }
  }

  lemma CloseGoesTrue(code: seq<Instr>, t: seq<nat>, f: seq<nat>, n: nat, end: nat, reg: nat, pf: nat, pt: nat, j: nat)
    requires Pending(code, t) && Pending(code, f) && (forall j :: j in t ==> j !in f)
    requires j in t
    ensures GoesTo(code, ClosedCode(code, t, f, end, reg, pf, pt), j, end, reg, pt)
  {
    hide PatchList;
    var c1 := PatchList(code, f, end, reg, pf);
    PatchOther(code, f, end, reg, pf, t);
    PatchedGoes(c1, t, end, reg, pt, j);
    SameCarries(code, c1, t);
    assert Carries(code, j) ==> c1[j-1] == code[j-1];
  }

  // ----- the loads of false and true

  lemma MaterializeCode(fs: FS, jumped: bool, reg: nat)
    requires jumped ==> fs.jpc == []
    ensures var fs2, n := Materialize(fs, jumped, reg), |fs.code| + if jumped then 0 else 1;
            && |fs2.code| == n + 2 && fs2.code[..|fs.code|] == fs.code
            && fs2.code[n] == LoadBool(reg, false, true)
            && fs2.code[n + 1] == LoadBool(reg, true, false)
            && (!jumped ==> fs2.code[|fs.code|].Jmp?)
            && fs2.jpc == (if jumped then [] else [|fs.code|] + fs.jpc)
            && fs2.k == fs.k
  {
    var (fs1, fj) := if jumped then (fs, []) else Jump(fs);
    assert fs1.jpc == [];
    assert [] + fj == fj;
  }

  /** The value an exit delivers. */
  function ExitValue(code: seq<Instr>, j: nat, truth: bool, r: Regs): Value {
    Delivered(Exits(truth, HeldBy(code, j, r), false))
  }

  /** All that matters about the code after the exits are closed: every one of them stores its value in reg
      and arrives at the end, and so does, or falls through to, the value itself. */
  ghost predicate Delivers(x: Ctx, code: seq<Instr>, c: seq<Instr>, p: set<nat>, j: nat, truth: bool, end: nat,
                           reg: nat) {
    forall r: Regs :: Leave(x, c, p, j, r, end) == Fall(Write(r, reg, ExitValue(code, j, truth, r)))
  }

  lemma DeliversVia(x: Ctx, code: seq<Instr>, c: seq<Instr>, p: set<nat>, j: nat, truth: bool, end: nat, reg: nat,
                    other: nat)
    requires GoesTo(code, c, j, end, reg, other) && j !in p && end == |c| && reg < NO_REG
    requires Carries(code, j) || (other < end && c[other] == LoadBool(reg, truth, other + 2 == end) && other + 2 >= end)
    ensures Delivers(x, code, c, p, j, truth, end, reg)
  {
    forall r: Regs ensures Leave(x, c, p, j, r, end) == Fall(Write(r, reg, ExitValue(code, j, truth, r))) {
      if !Carries(code, j) {
        assert Exec(x, c, p, other, r, end) == Exec(x, c, p, end, Write(r, reg, Bool(truth)), end);
      }
    }
  }

  /** What was pending to here is still, and the register has the value for it too. */
  ghost predicate StillPending(fs: FS, d: Desc, fs2: FS, reg: nat) {
    fs.jpc != [] ==>
      d.k == VNonReloc(reg) && (forall j :: j in fs.jpc ==> j in fs2.jpc) && Untouched(fs.code, fs2.code, fs.jpc)
  }

  lemma KeptGood(x: Ctx, fs: FS, d: Desc, w: Way, fs2: FS, reg: nat, free: nat, r: Regs, o: Out)
    requires StillPending(fs, d, fs2, reg) && Good(x, fs, d, w, free, r, o)
    requires o.Exit? && o.pc !in d.t && o.pc !in d.f
    ensures Good(x, fs2, Desc(VNonReloc(reg), [], []), w, free, r,
                 Leave(x, fs2.code, Set(fs2.jpc), o.pc, o.r, |fs2.code|))
  {
  }

  /** An outcome of an expression whose exits all deliver into reg. */
  lemma CloseGood(x: Ctx, fs: FS, d: Desc, w: Way, fs2: FS, reg: nat, free: nat, r: Regs, o: Out)
    requires 0 <= End(fs, d) <= |fs2.code| && free <= reg < NO_REG && StillPending(fs, d, fs2, reg)
    requires forall j :: j in d.t ==> Delivers(x, fs.code, fs2.code, Set(fs2.jpc), j, true, |fs2.code|, reg)
    requires forall j :: j in d.f ==> Delivers(x, fs.code, fs2.code, Set(fs2.jpc), j, false, |fs2.code|, reg)
    requires forall r2 :: w.Falls? && w.h == Nothing && FallGood(x, fs, d, w.v, r2) && Same(r, r2, free) ==>
               Good(x, fs2, Desc(VNonReloc(reg), [], []), w, free, r,
                    Exec(x, fs2.code, Set(fs2.jpc), End(fs, d), r2, |fs2.code|))
    ensures StepGood(x, fs, d, w, fs2, Desc(VNonReloc(reg), [], []), Close(w), free, r, o)
  {
    hide FallGood, Exec, Leave, HeldBy, StillPending;
    var d2 := Desc(VNonReloc(reg), [], []);
    assert All(fs2, d2) == fs2.jpc;
    if Good(x, fs, d, w, free, r, o) && o.Exit? && o.pc !in d.t && o.pc !in d.f {
      KeptGood(x, fs, d, w, fs2, reg, free, r, o);
    }
    if Good(x, fs, d, w, free, r, o) && o.Exit? && (o.pc in d.t || o.pc in d.f) {
      var truth := o.pc in d.t;
      assert Delivers(x, fs.code, fs2.code, Set(fs2.jpc), o.pc, truth, |fs2.code|, reg);
      assert ExitValue(fs.code, o.pc, truth, o.r) == Delivered(w);
      WriteGood(x, fs2, Delivered(w), reg, free, r, o.r);
    }
  }

  lemma WriteGood(x: Ctx, fs2: FS, v: Value, reg: nat, free: nat, r: Regs, r2: Regs)
    requires free <= reg < NO_REG && Same(r, r2, free)
    ensures Good(x, fs2, Desc(VNonReloc(reg), [], []), Falls(v, Nothing), free, r, Fall(Write(r2, reg, v)))
  {
  }

  /** The generator state and the targets after closing. */
  function Closed(fs: FS, d: Desc, reg: nat, jumped: bool): FS {
    if NeedValue(fs.code, d.t) || NeedValue(fs.code, d.f) then
      var n := |fs.code| + if jumped then 0 else 1;
      CloseLists(Materialize(fs, jumped, reg), d, reg, n, n + 1)
    else CloseLists(fs, d, reg, 0, 0)
  }

  lemma PrefixSame(code: seq<Instr>, code1: seq<Instr>, q: seq<nat>)
    requires |code| <= |code1| && code1[..|code|] == code && Pending(code, q)
    ensures Pending(code1, q) && Untouched(code, code1, q)
  {
    assert forall i :: 0 <= i < |code| ==> code1[i] == code1[..|code|][i];
  }

  lemma EndsPrefix(code: seq<Instr>, code1: seq<Instr>)
    requires |code| <= |code1| && code1[..|code|] == code && Ends(code, |code|)
    ensures Ends(code1, |code|)
  {
    if |code| > 0 { assert code1[..|code|][|code| - 1] == code1[|code| - 1]; }
  }

  /** The static effect of closing on code that continues with code1. */
  lemma CloseEvolves(fs: FS, d: Desc, code1: seq<Instr>, end: nat, reg: nat, pf: nat, pt: nat, p2: set<nat>)
    requires WF(fs, d) && End(fs, d) == |fs.code| <= end
    requires |fs.code| <= |code1| && code1[..|fs.code|] == fs.code
    requires forall j :: j in d.f && !Carries(code1, j) ==> |fs.code| <= pf
    requires forall j :: j in d.t && !Carries(code1, j) ==> |fs.code| <= pt
    requires forall i :: 0 <= i < |fs.code| ==> (i in p2 <==> i in fs.jpc)
    ensures var c := ClosedCode(code1, d.t, d.f, end, reg, pf, pt);
            && |c| == |code1| && c[|fs.code|..] == code1[|fs.code|..]
            && Evolves(fs.code, Pend(fs, d), c, p2, |fs.code|)
            && Pending(c, fs.jpc) && Untouched(fs.code, c, fs.jpc) && Ends(c, |fs.code|)
  {
    hide Evolves, Pending, Carries, Ends, ClosedCode;
    var n, q, c := |fs.code|, d.t + d.f, ClosedCode(code1, d.t, d.f, end, reg, pf, pt);
    Split(fs, d);
    PrefixSame(fs.code, code1, d.t);
    PrefixSame(fs.code, code1, d.f);
    PrefixSame(fs.code, code1, fs.jpc);
    PrefixSame(fs.code, code1, All(fs, d));
    EndsPrefix(fs.code, code1);
    CloseStatic(code1, d.t, d.f, n, end, reg, pf, pt);
    PendingJumps(code1, All(fs, d));
    PendingJumps(code1, fs.jpc);
    PendingJumps(fs.code, All(fs, d));
    EvolvesSelf(fs.code, code1, n);
    EvolvesMore(fs.code, {}, code1, {}, n, All(fs, d));
    EvolvesMore(code1, Set(d.t) + Set(d.f), c, {}, n, fs.jpc);
    EvolvesUntouched(code1, Set(d.t) + Set(d.f), c, {}, n, fs.jpc);
    assert {} + Set(All(fs, d)) == Set(d.t) + Set(d.f) + Set(fs.jpc) == Pend(fs, d);
    EvolvesTrans(fs.code, Pend(fs, d), code1, Pend(fs, d), c, {} + Set(fs.jpc), n, n);
    EvolvesAbove(fs.code, Pend(fs, d), c, {} + Set(fs.jpc), n, p2);
    StillJumps(code1, Pend(fs, d), c, {} + Set(fs.jpc), n, fs.jpc);
    SamePart(code1, c, fs.jpc);
    PendingMove(code1, fs.jpc, c, fs.jpc);
    StillEnds(fs.code, Pend(fs, d), c, p2, n);
  }

  /** Every exit of a list delivers its value. */
  lemma CloseDelivers(x: Ctx, fs: FS, d: Desc, code1: seq<Instr>, end: nat, reg: nat, pf: nat, pt: nat, p2: set<nat>)
    requires WF(fs, d) && End(fs, d) == |fs.code| <= end == |code1| && reg < NO_REG
    requires code1[..|fs.code|] == fs.code
    requires forall j :: j in d.f && !Carries(code1, j) ==>
      |fs.code| <= pf == end - 2 && code1[pf] == LoadBool(reg, false, true)
    requires forall j :: j in d.t && !Carries(code1, j) ==>
      |fs.code| <= pt == end - 1 && code1[pt] == LoadBool(reg, true, false)
    requires forall i :: 0 <= i < |fs.code| ==> (i in p2 <==> i in fs.jpc)
    ensures var c := ClosedCode(code1, d.t, d.f, end, reg, pf, pt);
            && (forall j :: j in d.t ==> Delivers(x, fs.code, c, p2, j, true, end, reg))
            && (forall j :: j in d.f ==> Delivers(x, fs.code, c, p2, j, false, end, reg))
  {
    hide Evolves, Pending, Ends, ClosedCode, Delivers, Carries, GoesTo;
    var n, c := |fs.code|, ClosedCode(code1, d.t, d.f, end, reg, pf, pt);
    Split(fs, d);
    PrefixSame(fs.code, code1, d.t);
    PrefixSame(fs.code, code1, d.f);
    SameCarries(fs.code, code1, d.t);
    SameCarries(fs.code, code1, d.f);
    CloseEvolves(fs, d, code1, end, reg, pf, pt, p2);
    forall j | j in d.t ensures Delivers(x, fs.code, c, p2, j, true, end, reg) {
      CloseGoesTrue(code1, d.t, d.f, n, end, reg, pf, pt, j);
      if !Carries(code1, j) { assert c[n..][pt - n] == code1[n..][pt - n]; }
      assert j in d.t + d.f;
      DeliversFrom(x, fs.code, code1, c, p2, j, true, end, reg, pt, d.t);
    }
    forall j | j in d.f ensures Delivers(x, fs.code, c, p2, j, false, end, reg) {
      CloseGoesFalse(code1, d.t, d.f, n, end, reg, pf, pt, j);
      if !Carries(code1, j) { assert c[n..][pf - n] == code1[n..][pf - n]; }
      assert j in d.t + d.f;
      DeliversFrom(x, fs.code, code1, c, p2, j, false, end, reg, pf, d.f);
    }
  }

  lemma DeliversFrom(x: Ctx, code: seq<Instr>, code1: seq<Instr>, c: seq<Instr>, p: set<nat>, j: nat, truth: bool,
                     end: nat, reg: nat, other: nat, l: seq<nat>)
    requires GoesTo(code1, c, j, end, reg, other) && j !in p && end == |c| && reg < NO_REG
    requires Carries(code1, j) ||
      (other < end && c[other] == LoadBool(reg, truth, other + 2 == end) && other + 2 >= end)
    requires Untouched(code, code1, l) && j in l
    ensures Delivers(x, code, c, p, j, truth, end, reg)
  {
    DeliversVia(x, code1, c, p, j, truth, end, reg, other);
    forall r: Regs ensures Leave(x, c, p, j, r, end) == Fall(Write(r, reg, ExitValue(code, j, truth, r))) {
      HeldSame(code, code1, j, r, l);
    }
  }
}
