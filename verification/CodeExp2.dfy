/** The generator's operations that make a value available: exp2reg, exp2nextreg, exp2anyreg, exp2RK. */
module CodeExp2 {
  import opened LuaCode
  import opened CodeExec
  import opened CodeLists
  import opened CodeMeaning
  import opened CodeState
  import opened CodeEvolve
  import opened CodeLoad
  import opened CodeClose

  /** The state before the lists are patched: the code so far, perhaps a jump, and the two loads. */
  ghost predicate Ready(fs: FS, d: Desc, fs1: FS, reg: nat, pf: nat, pt: nat) {
    && |fs.code| <= |fs1.code| && fs1.code[..|fs.code|] == fs.code
    && (fs1.jpc == fs.jpc || (fs1.jpc == [|fs.code|] + fs.jpc && |fs.code| < |fs1.code| && fs1.code[|fs.code|].Jmp?))
    && (|fs1.code| > |fs.code| ==> !IsTest(fs1.code[|fs1.code| - 1]))
    && (forall j :: j in d.f && !Carries(fs1.code, j) ==>
          |fs.code| <= pf == |fs1.code| - 2 && fs1.code[pf] == LoadBool(reg, false, true))
    && (forall j :: j in d.t && !Carries(fs1.code, j) ==>
          |fs.code| <= pt == |fs1.code| - 1 && fs1.code[pt] == LoadBool(reg, true, false))
    && fs.k <= fs1.k && fs1.nactvar == fs.nactvar
  }

  lemma NeededTargets(code: seq<Instr>, code1: seq<Instr>, l: seq<nat>)
    requires !NeedValue(code, l)
    ensures forall j :: j in l ==> Carries(code, j)
  {
  }

  lemma PlainReady(fs: FS, d: Desc, reg: nat)
    requires !NeedValue(fs.code, d.t) && !NeedValue(fs.code, d.f)
    ensures Ready(fs, d, fs, reg, 0, 0)
  {
    NeededTargets(fs.code, fs.code, d.t);
    NeededTargets(fs.code, fs.code, d.f);
  }

  lemma MaterializeReady(fs: FS, d: Desc, jumped: bool, reg: nat)
    requires jumped ==> fs.jpc == []
    ensures var n := |fs.code| + if jumped then 0 else 1; Ready(fs, d, Materialize(fs, jumped, reg), reg, n, n + 1)
  {
    hide Materialize;
    MaterializeCode(fs, jumped, reg);
  }

  lemma ReadyPending(fs: FS, d: Desc, fs1: FS, reg: nat, pf: nat, pt: nat, c: seq<Instr>)
    requires Ready(fs, d, fs1, reg, pf, pt) && WF(fs, d) && End(fs, d) == |fs.code|
    requires |c| == |fs1.code| && c[|fs.code|..] == fs1.code[|fs.code|..] && Pending(c, fs.jpc) && Ends(c, |fs.code|)
    ensures Pending(c, fs1.jpc) && Below(fs1.jpc, |c|) && Ends(c, |c|)
  {
    var n := |fs.code|;
    Split(fs, d);
    hide Ready, WF;
    assert Ready(fs, d, fs1, reg, pf, pt);
    ReadyLast(fs, d, fs1, reg, pf, pt, c);
    if fs1.jpc == [n] + fs.jpc {
      assert c[n..][0] == fs1.code[n..][0];
      NoDupConcat([n], fs.jpc);
    }
  }

  lemma ReadyLast(fs: FS, d: Desc, fs1: FS, reg: nat, pf: nat, pt: nat, c: seq<Instr>)
    requires Ready(fs, d, fs1, reg, pf, pt)
    requires |c| == |fs1.code| && c[|fs.code|..] == fs1.code[|fs.code|..] && Ends(c, |fs.code|)
    ensures Ends(c, |c|)
    ensures fs1.jpc == fs.jpc || (fs1.jpc == [|fs.code|] + fs.jpc && |fs.code| < |c| && c[|fs.code|].Jmp?)
  {
    var n := |fs.code|;
    if |c| > n {
      assert c[n..][|c| - 1 - n] == fs1.code[n..][|c| - 1 - n];
      assert c[n..][0] == fs1.code[n..][0];
    }
  }

  lemma CloseMoves(fs: FS, d: Desc, fs1: FS, reg: nat, pf: nat, pt: nat)
    requires WF(fs, d) && End(fs, d) == |fs.code| && Ready(fs, d, fs1, reg, pf, pt) && reg < MAXSTACK
    requires !CloseLists(fs1, d, reg, pf, pt).err
    ensures Moves(fs, d, CloseLists(fs1, d, reg, pf, pt), Desc(VNonReloc(reg), [], []))
    ensures d.k == VNonReloc(reg) || fs.jpc == [] ==> StillPending(fs, d, CloseLists(fs1, d, reg, pf, pt), reg)
  {
    hide Pending, Evolves, Carries, PatchList;
    var fs2, n, d2 := CloseLists(fs1, d, reg, pf, pt), |fs.code|, Desc(VNonReloc(reg), [], []);
    var p2 := Set(fs1.jpc);
    CloseEvolves(fs, d, fs1.code, |fs1.code|, reg, pf, pt, p2);
    ReadyPending(fs, d, fs1, reg, pf, pt, fs2.code);
    assert All(fs2, d2) == fs1.jpc;
  }

  lemma ReadyDelivers(x: Ctx, fs: FS, d: Desc, fs1: FS, reg: nat, pf: nat, pt: nat)
    requires WF(fs, d) && End(fs, d) == |fs.code| && Ready(fs, d, fs1, reg, pf, pt) && reg < MAXSTACK
    ensures var fs2 := CloseLists(fs1, d, reg, pf, pt);
            && (forall j :: j in d.t ==> Delivers(x, fs.code, fs2.code, Set(fs2.jpc), j, true, |fs2.code|, reg))
            && (forall j :: j in d.f ==> Delivers(x, fs.code, fs2.code, Set(fs2.jpc), j, false, |fs2.code|, reg))
  {
    hide WF, Delivers, Carries, PatchList;
    CloseDelivers(x, fs, d, fs1.code, |fs1.code|, reg, pf, pt, Set(fs1.jpc));
  }

  /** The exits of the expression arrive as its value does, if the value itself does. */
  lemma CloseStep(x: Ctx, fs0: FS, fs: FS, d: Desc, s: Sem, fs1: FS, reg: nat, pf: nat, pt: nat)
    requires Correct(x, fs0, fs, d, s) && End(fs, d) == |fs.code| && Ready(fs, d, fs1, reg, pf, pt)
    requires fs0.freereg <= reg < MAXSTACK && !CloseLists(fs1, d, reg, pf, pt).err
    requires d.k == VNonReloc(reg) || fs.jpc == []
    requires forall r, v :: FallGood(x, fs, d, v, r) ==> Arrives(x, fs1, d, reg, pf, pt, |fs.code|, r, v)
    ensures Correct(x, fs0, CloseLists(fs1, d, reg, pf, pt), Desc(VNonReloc(reg), [], []), Closing(s))
  {
    hide Runs, Evolves, Exec, Pending, Means, StepGood, CloseLists, Delivers, Arrives, Leave, Carries;
    var fs2, d2 := CloseLists(fs1, d, reg, pf, pt), Desc(VNonReloc(reg), [], []);
    CloseMoves(fs, d, fs1, reg, pf, pt);
    ReadyDelivers(x, fs, d, fs1, reg, pf, pt);
    hide WF, Ready, FallGood, StillPending;
    forall r: Regs, h: Held, o: Out
      ensures StepGood(x, fs, d, Means(x.ops, s, r, h), fs2, d2, Means(x.ops, Closing(s), r, h), fs0.freereg, r, o)
    {
      var w := Means(x.ops, s, r, h);
      MeansClosing(x.ops, s, r, h);
      forall r2 | w.Falls? && w.h == Nothing && FallGood(x, fs, d, w.v, r2) && Same(r, r2, fs0.freereg)
        ensures Good(x, fs2, d2, w, fs0.freereg, r, Exec(x, fs2.code, Set(fs2.jpc), End(fs, d), r2, |fs2.code|))
      {
        ArriveGood(x, fs1, d, reg, pf, pt, |fs.code|, fs0.freereg, r, r2, w.v);
      }
      CloseGood(x, fs, d, w, fs2, reg, fs0.freereg, r, o);
    }
    Transfer(x, fs0, fs, d, s, fs2, d2, Closing(s));
  }

  lemma MeansClosing(ops: Ops, s: Sem, r: Regs, h: Held)
    ensures Means(ops, Closing(s), r, h) == Close(Means(ops, s, r, h))
  {
  }

  /** Falling through, the closed code arrives at its end, or at a jump to its end, with v in reg. */
  ghost predicate Arrives(x: Ctx, fs1: FS, d: Desc, reg: nat, pf: nat, pt: nat, n: nat, r: Regs, v: Value) {
    var fs2 := CloseLists(fs1, d, reg, pf, pt);
    var o := Exec(x, fs2.code, Set(fs2.jpc), n, r, |fs2.code|);
    || (o == Fall(r) && Reg(r, reg) == v)
    || o == Fall(Write(r, reg, v))
    || (o.Exit? && o.pc in fs2.jpc && !Carries(fs2.code, o.pc) && o.r == r && Reg(r, reg) == v)
  }

  lemma ArriveGood(x: Ctx, fs1: FS, d: Desc, reg: nat, pf: nat, pt: nat, n: nat, free: nat, r: Regs, r2: Regs, v: Value)
    requires Arrives(x, fs1, d, reg, pf, pt, n, r2, v) && Same(r, r2, free) && free <= reg < NO_REG
    ensures var fs2 := CloseLists(fs1, d, reg, pf, pt);
            Good(x, fs2, Desc(VNonReloc(reg), [], []), Falls(v, Nothing), free, r,
                 Exec(x, fs2.code, Set(fs2.jpc), n, r2, |fs2.code|))
  {
    hide Exec, CloseLists;
  }

  // ----- the three ways the value itself arrives

  lemma PlainArrives(x: Ctx, fs: FS, d: Desc, reg: nat, r: Regs)
    ensures Arrives(x, fs, d, reg, 0, 0, |fs.code|, r, Reg(r, reg))
  {
  }

  lemma JumpedArrives(x: Ctx, fs: FS, d: Desc, reg: nat, r: Regs)
    requires WF(fs, d) && End(fs, d) == |fs.code| && fs.jpc == []
    ensures var n := |fs.code|; Arrives(x, Materialize(fs, true, reg), d, reg, n, n + 1, n, r, Bool(false))
  {
    hide Pending, Evolves, Materialize;
    var fs1, n := Materialize(fs, true, reg), |fs.code|;
    MaterializeCode(fs, true, reg);
    MaterializeReady(fs, d, true, reg);
    CloseEvolves(fs, d, fs1.code, n + 2, reg, n, n + 1, Set(fs1.jpc));
    var c := ClosedCode(fs1.code, d.t, d.f, n + 2, reg, n, n + 1);
    assert c[n..][0] == fs1.code[n..][0];
    assert Exec(x, c, Set(fs1.jpc), n, r, n + 2) == Exec(x, c, Set(fs1.jpc), n + 2, Write(r, reg, Bool(false)), n + 2);
  }

  lemma FallArrives(x: Ctx, fs: FS, d: Desc, reg: nat, r: Regs)
    requires WF(fs, d) && End(fs, d) == |fs.code|
    ensures var n := |fs.code|; Arrives(x, Materialize(fs, false, reg), d, reg, n + 1, n + 2, n, r, Reg(r, reg))
  {
    hide Pending, Evolves, Materialize;
    var fs1, n := Materialize(fs, false, reg), |fs.code|;
    MaterializeCode(fs, false, reg);
    MaterializeReady(fs, d, false, reg);
    Split(fs, d);
    CloseEvolves(fs, d, fs1.code, n + 3, reg, n + 1, n + 2, Set(fs1.jpc));
    var c := ClosedCode(fs1.code, d.t, d.f, n + 3, reg, n + 1, n + 2);
    assert c[n..][0] == fs1.code[n..][0];
    assert fs1.jpc[0] == n;
    assert Exec(x, c, Set(fs1.jpc), n, r, n + 3) == Exit(n, r);
  }

  /** The second half of exp2reg. */
  lemma ClosedStep(x: Ctx, fs0: FS, fs: FS, d: Desc, s: Sem, reg: nat, jumped: bool)
    requires Correct(x, fs0, fs, d, s) && End(fs, d) == |fs.code|
    requires fs0.freereg <= reg < MAXSTACK && !Closed(fs, d, reg, jumped).err
    requires d.k == if jumped then VFalse else VNonReloc(reg)
    requires jumped ==> fs.jpc == [] && NeedValue(fs.code, d.t)
    ensures Correct(x, fs0, Closed(fs, d, reg, jumped), Desc(VNonReloc(reg), [], []), Closing(s))
  {
    hide Correct, NeedValue, Materialize, CloseLists, Arrives, Means, Ready;
    assert WF(fs, d) by { WellFormed(x, fs0, fs, d, s); }
    var n := |fs.code| + if jumped then 0 else 1;
    if NeedValue(fs.code, d.t) || NeedValue(fs.code, d.f) {
      MaterializeReady(fs, d, jumped, reg);
      forall r, v | FallGood(x, fs, d, v, r)
        ensures Arrives(x, Materialize(fs, jumped, reg), d, reg, n, n + 1, |fs.code|, r, v)
      {
        if jumped { JumpedArrives(x, fs, d, reg, r); } else { FallArrives(x, fs, d, reg, r); }
      }
      CloseStep(x, fs0, fs, d, s, Materialize(fs, jumped, reg), reg, n, n + 1);
    } else {
      PlainReady(fs, d, reg);
      forall r, v | FallGood(x, fs, d, v, r) ensures Arrives(x, fs, d, reg, 0, 0, |fs.code|, r, v) {
        PlainArrives(x, fs, d, reg, r);
      }
      CloseStep(x, fs0, fs, d, s, fs, reg, 0, 0);
    }
  }

  /** What exp2reg makes of a meaning. */
  function InReg(s: Sem, jumped: bool): Sem { Closing(if jumped then Branching(s, true, false) else Emitted(s)) }

  /** With no exits there is nothing to close. */
  lemma ClosedPlain(x: Ctx, fs0: FS, fs: FS, d: Desc, s: Sem)
    requires Correct(x, fs0, fs, d, s) && d.t == [] && d.f == []
    ensures Correct(x, fs0, fs, d, Closing(s))
  {
    hide Correct, Means;
    forall r: Regs, h, o | Good(x, fs, d, Means(x.ops, s, r, h), fs0.freereg, r, o)
      ensures Good(x, fs, d, Means(x.ops, Closing(s), r, h), fs0.freereg, r, o)
    {
      MeansClosing(x.ops, s, r, h);
    }
    Remean(x, fs0, fs, d, s, Closing(s));
  }

  /** The value is in the register already, so that no instruction is needed for it. */
  predicate There(d: Desc, reg: nat) { d.k == VNonReloc(reg) || d.k == VLocal(reg) }

  lemma ThereStep(x: Ctx, fs0: FS, fs: FS, d: Desc, s: Sem, reg: nat)
    requires Correct(x, fs0, fs, d, s) && There(d, reg) && reg < MAXSTACK
    ensures Discharge2Reg(fs, d, reg) == (fs, d.(k := VNonReloc(reg)))
    ensures Correct(x, fs0, fs, d.(k := VNonReloc(reg)), s)
  {
    hide Correct;
    WellFormed(x, fs0, fs, d, s);
    SameCode(x, fs0, fs, d, s, fs, d.(k := VNonReloc(reg)));
  }

  /** exp2reg on anything but a comparison, once the value is in reg. */
  lemma LoadedClosed(x: Ctx, fs0: FS, fs: FS, d: Desc, s: Sem, reg: nat)
    requires Correct(x, fs0, fs, d, s) && d.k == VNonReloc(reg) && fs0.freereg <= reg < MAXSTACK
    requires !(if d.t == [] && d.f == [] then fs else Closed(fs, d, reg, false)).err
    ensures var fs2 := if d.t == [] && d.f == [] then fs else Closed(fs, d, reg, false);
            Correct(x, fs0, fs2, Desc(VNonReloc(reg), [], []), Closing(s))
  {
    hide Correct, Closed;
    if d.t == [] && d.f == [] {
      ClosedPlain(x, fs0, fs, d, s);
    } else {
      ClosedStep(x, fs0, fs, d, s, reg, false);
    }
  }

  /** exp2reg: the value is in reg on every path, and nothing is pending but jumps to here. */
  lemma Exp2RegCorrect(x: Ctx, fs0: FS, fs: FS, d: Desc, s: Sem, reg: nat)
    requires Correct(x, fs0, fs, d, s) && !d.k.VCond?
    requires fs0.freereg <= reg < MAXSTACK && !Exp2Reg(fs, d, reg).0.err
    ensures Correct(x, fs0, Exp2Reg(fs, d, reg).0, Desc(VNonReloc(reg), [], []),
                    if There(d, reg) then Closing(s) else InReg(s, d.k.VJmp?))
    ensures Exp2Reg(fs, d, reg).1 == Desc(VNonReloc(reg), [], [])
  {
    hide Correct, NeedValue, Materialize, CloseLists, Means, Code, Chain;
    if d.k.VJmp? {
      JoinStep(x, fs0, fs, d, s);
      var fs2, d2 := Chain(fs, d.t, [d.k.pc]), Joined(fs, d);
      JumpNeeds(x, fs0, fs, d, s);
      var (_, dj) := JoinJump(fs, d);
      CloseListsOnly(fs2, dj, d2, reg, true);
      ClosedStep(x, fs0, fs2, d2, Branching(s, true, false), reg, true);
    } else if There(d, reg) {
      ThereStep(x, fs0, fs, d, s, reg);
      LoadedClosed(x, fs0, fs, d.(k := VNonReloc(reg)), s, reg);
    } else {
      Discharged(x, fs0, fs, d, s, reg);
      LoadedClosed(x, fs0, Discharge2Reg(fs, d, reg).0, d.(k := VNonReloc(reg)), Emitted(s), reg);
    }
  }

  lemma CloseListsOnly(fs: FS, d: Desc, d2: Desc, reg: nat, jumped: bool)
    requires d.t == d2.t && d.f == d2.f
    ensures forall pf, pt :: CloseLists(Materialize(fs, jumped, reg), d, reg, pf, pt)
                          == CloseLists(Materialize(fs, jumped, reg), d2, reg, pf, pt)
  {
  }

  /** The jump of a comparison carries no value. */
  lemma JumpNeeds(x: Ctx, fs0: FS, fs: FS, d: Desc, s: Sem)
    requires Correct(x, fs0, fs, d, s) && d.k.VJmp?
    ensures NeedValue(Chain(fs, d.t, [d.k.pc]).code, d.t + [d.k.pc])
    ensures Chain(fs, d.t, [d.k.pc]).jpc == []
  {
    hide Runs, Evolves, Pending, Chain;
    JoinCode(fs, d);
    assert (d.t + [d.k.pc])[|d.t|] == d.k.pc;
    assert Chain(fs, d.t, [d.k.pc]).jpc == fs.jpc by { ChainJpc(fs, d.t, [d.k.pc]); }
  }

  lemma ChainJpc(fs: FS, a: seq<nat>, b: seq<nat>)
    ensures Chain(fs, a, b).jpc == fs.jpc
  {
  }
}
