/** Operands of arithmetic and comparisons: luaK_exp2RK, codearith and codecomp. */
module CodeOperand {
  import opened LuaCode
  import opened CodeExec
  import opened CodeLists
  import opened CodeMeaning
  import opened CodeState
  import opened CodeEvolve
  import opened CodeLoad
  import opened CodeClose
  import opened CodeExp2
  import opened CodeCond
  import opened CodeGoIf
  import opened CodeBoth

  // ----- a value in some register

  lemma Exp2RegFree(fs: FS, d: Desc, reg: nat)
    ensures Exp2Reg(fs, d, reg).0.freereg == fs.freereg
  {
    DischargeFree(fs, d, reg);
  }

  /** The value is in a temporary register, which exp2reg finds it in again. */
  predicate Temporary(fs: FS, d: Desc) { d.k.VNonReloc? && d.k.r >= fs.nactvar }

  function NextSem(s: Sem, fs: FS, d: Desc): Sem { if Temporary(fs, d) then Closing(s) else InReg(s, d.k.VJmp?) }

  /** luaK_exp2nextreg. */
  lemma NextRegCorrect(x: Ctx, fs0: FS, fs: FS, d: Desc, s: Sem)
    requires Correct(x, fs0, fs, d, s) && Tidy(fs0.freereg, fs, d) && !d.k.VCond?
    requires !Exp2NextReg(fs, d).0.err
    ensures Exp2NextReg(fs, d).1 == Desc(VNonReloc(fs0.freereg), [], [])
    ensures Correct(x, fs0, Exp2NextReg(fs, d).0, Exp2NextReg(fs, d).1, NextSem(s, fs, d))
    ensures Tidy(fs0.freereg, Exp2NextReg(fs, d).0, Exp2NextReg(fs, d).1)
  {
    hide Correct, Exp2Reg, Means;
    DischargeVarsStep(x, fs0, fs, d, s);
    var d1 := DischargeVars(d);
    var fs1 := FreeExp(fs, d1);
    var fs2 := Reserve(fs1, 1);
    FreeOnly(fs, d1);
    FreeOnly(fs1, d1);
    WellFormed(x, fs0, fs, d1, s);
    KindReg(fs, d1);
    Rescale(x, fs0, fs, d1, s, fs2);
    Exp2RegCorrect(x, fs0, fs2, d1, s, fs1.freereg);
    Exp2RegFree(fs2, d1, fs1.freereg);
  }

  lemma KindReg(fs: FS, d: Desc)
    requires WF(fs, d)
    ensures !fs.err && (d.k.VNonReloc? ==> d.k.r < MAXSTACK)
  {
  }

  predicate InPlace(d: Desc) { (d.k.VLocal? || d.k.VNonReloc?) && d.t == [] && d.f == [] }

  /** luaK_exp2anyreg. */
  lemma AnyRegCorrect(x: Ctx, fs0: FS, fs: FS, d: Desc, s: Sem)
    requires Correct(x, fs0, fs, d, s) && Tidy(fs0.freereg, fs, d) && !d.k.VCond?
    requires !Exp2AnyReg(fs, d).0.err
    ensures Exp2AnyReg(fs, d).1.k.VNonReloc? && Exp2AnyReg(fs, d).1.t == Exp2AnyReg(fs, d).1.f == []
    ensures Correct(x, fs0, Exp2AnyReg(fs, d).0, Exp2AnyReg(fs, d).1, if InPlace(d) then s else NextSem(s, fs, d))
    ensures Tidy(fs0.freereg, Exp2AnyReg(fs, d).0, Exp2AnyReg(fs, d).1)
  {
    hide Correct, Exp2Reg, Exp2NextReg;
    DischargeVarsStep(x, fs0, fs, d, s);
    var d1 := DischargeVars(d);
    if InPlace(d) {
    } else if Temporary(fs, d) {
      Exp2RegCorrect(x, fs0, fs, d, s, d.k.r);
      Exp2RegFree(fs, d, d.k.r);
    } else {
      NextRegCorrect(x, fs0, fs, d1, s);
    }
  }

  // ----- an operand

  /** A description with nothing pending that names a register or a constant that fits. */
  ghost predicate IsOperand(d: Desc, o: nat) {
    && d.t == [] && d.f == []
    && ((d.k.VK? && d.k.k <= MAXINDEXRK && o == d.k.k + BITRK) || (d.k.VNonReloc? && o == d.k.r && o < MAXSTACK))
  }

  lemma ConstantOperand(x: Ctx, fs0: FS, fs: FS, d: Desc, s: Sem)
    requires Correct(x, fs0, fs, d, s) && (d.k.VTrue? || d.k.VFalse?)
    requires AddK(fs, Bool(d.k.VTrue?)).0.k <= x.k
    ensures Correct(x, fs0, AddK(fs, Bool(d.k.VTrue?)).0, d.(k := VK(AddK(fs, Bool(d.k.VTrue?)).1)), s)
  {
    hide Correct, AddK;
    WellFormed(x, fs0, fs, d, s);
    var (fs2, i) := AddK(fs, Bool(d.k.VTrue?));
    assert Kst(x, i) == Bool(d.k.VTrue?);
    SameCode(x, fs0, fs, d, s, fs2, d.(k := VK(i)));
  }

  /** The generator's description of a whole expression, its lists and its constants are what its form says. */
  ghost predicate Formed(fs: FS, d: Desc, e: Expr, k: seq<Value>) {
    && FormIs(fs, d, FormOf(e))
    && (FormOf(e).AsConst? ==> d.k.k == IndexOf(fs.k, Other(FormOf(e).n)))
    && (d.t != [] <==> HasExits(e, true)) && (d.f != [] <==> HasExits(e, false))
    && fs.k == Consts(e, k)
  }

  function OperandSem(e: Expr, k: seq<Value>): Sem {
    if Bare(e, Consts(e, k)) then Coding(e, k) else Closing(Emitted(Coding(e, k)))
  }

  lemma MeansOperand(ops: Ops, e: Expr, k: seq<Value>, r: Regs, h: Held)
    ensures Means(ops, OperandSem(e, k), r, h) == OperandWay(ops, e, k, r, h)
  {
    hide Coded, Bare, Consts;
    MeansClosing(ops, Emitted(Coding(e, k)), r, h);
    MeansEmitted(ops, Coding(e, k), r, h);
    MeansCoding(ops, e, k, r, h);
  }

  lemma MeansCoding(ops: Ops, e: Expr, k: seq<Value>, r: Regs, h: Held)
    ensures Means(ops, Coding(e, k), r, h) == Coded(ops, e, k, r, h)
  {
  }

  lemma MeansInReg(ops: Ops, e: Expr, k: seq<Value>, r: Regs, h: Held)
    ensures Means(ops, InReg(Coding(e, k), FormOf(e).AsJump?), r, h) == Means(ops, Closing(Emitted(Coding(e, k))), r, h)
  {
    hide Coded, Means;
    MeansCoding(ops, e, k, r, h);
    MeansBranching(ops, Coding(e, k), true, false, r, h);
    MeansEmitted(ops, Coding(e, k), r, h);
    MeansClosing(ops, Branching(Coding(e, k), true, false), r, h);
    MeansClosing(ops, Emitted(Coding(e, k)), r, h);
    if Coded(ops, e, k, r, h).Falls? { FormWay(ops, e, k, r, h); }
  }

  lemma RegOperand(x: Ctx, fs0: FS, fs: FS, d: Desc, e: Expr, k: seq<Value>)
    requires Correct(x, fs0, fs, d, InReg(Coding(e, k), FormOf(e).AsJump?)) && !Bare(e, Consts(e, k))
    ensures Correct(x, fs0, fs, d, OperandSem(e, k))
  {
    hide Correct, Means, Coded;
    forall r: Regs, h
      ensures Means(x.ops, OperandSem(e, k), r, h) == Means(x.ops, InReg(Coding(e, k), FormOf(e).AsJump?), r, h)
    {
      MeansInReg(x.ops, e, k, r, h);
    }
    Equal(x, fs0, fs, d, InReg(Coding(e, k), FormOf(e).AsJump?), OperandSem(e, k));
  }

  lemma FormKind(fs: FS, d: Desc, e: Expr, k: seq<Value>)
    requires Formed(fs, d, e, k)
    ensures d.k.VJmp? <==> FormOf(e).AsJump?
    ensures d.k.VNonReloc? ==> d.k.r < fs.nactvar
    ensures !d.k.VCond? && (InPlace(d) ==> Bare(e, Consts(e, k)))
    ensures d.t == [] && d.f == [] && !d.k.VLocal? && !d.k.VNonReloc? ==>
              (Bare(e, Consts(e, k)) <==>
               ((d.k.VTrue? || d.k.VFalse?) && |fs.k| <= MAXINDEXRK) || (d.k.VK? && d.k.k <= MAXINDEXRK))
    ensures d.t != [] || d.f != [] ==> !Bare(e, Consts(e, k))
    ensures d.k.VTrue? <==> FormOf(e).AsTrue?
    ensures d.k.VFalse? <==> FormOf(e).AsFalse?
  {
    hide Consts;
  }

  /** luaK_exp2RK with exits to close. */
  lemma ExitOperand(x: Ctx, fs0: FS, fs: FS, d: Desc, e: Expr, k: seq<Value>)
    requires Correct(x, fs0, fs, d, Coding(e, k)) && Tidy(fs0.freereg, fs, d) && Formed(fs, d, e, k)
    requires !Exp2RK(fs, d).0.err && (d.t != [] || d.f != [])
    ensures IsOperand(Exp2RK(fs, d).1, Exp2RK(fs, d).2) && Exp2RK(fs, d).0.k == fs.k
    ensures Correct(x, fs0, Exp2RK(fs, d).0, Exp2RK(fs, d).1, OperandSem(e, k))
    ensures Tidy(fs0.freereg, Exp2RK(fs, d).0, Exp2RK(fs, d).1)
  {
    hide Correct, AddK, Exp2NextReg, Exp2Reg, Consts, OperandSem, Formed;
    FormKind(fs, d, e, k);
    var (fs1, d1) := Exp2AnyReg(fs, d);
    assert Exp2RK(fs, d) == (fs1, d1, if d1.k.VNonReloc? then d1.k.r else 0) by { hide *; RKExits(fs, d); }
    AnyRegCorrect(x, fs0, fs, d, Coding(e, k));
    RegOperand(x, fs0, fs1, d1, e, k);
    WellFormed(x, fs0, fs1, d1, OperandSem(e, k));
    KindReg(fs1, d1);
    AnyRegConsts(fs, d);
  }

  lemma RKExits(fs: FS, d: Desc)
    requires d.t != [] || d.f != []
    ensures var (fs1, d1) := Exp2AnyReg(fs, d); Exp2RK(fs, d) == (fs1, d1, if d1.k.VNonReloc? then d1.k.r else 0)
  {
    hide Exp2Reg, AddK;
    var d1 := DischargeVars(d);
    Exp2RegDesc(fs, d1, if d1.k.VNonReloc? then d1.k.r else 0);
    Exp2RegDesc(Reserve(FreeExp(fs, d1), 1), d1, FreeExp(fs, d1).freereg);
  }

  lemma Exp2RegDesc(fs: FS, d: Desc, reg: nat)
    ensures Exp2Reg(fs, d, reg).1 == Desc(VNonReloc(reg), [], [])
  {
    hide CloseLists, Discharge2Reg, Materialize, JoinJump;
  }

  lemma ChainConsts(fs: FS, a: seq<nat>, b: seq<nat>)
    ensures Chain(fs, a, b).k == fs.k && PatchToHere(fs, a).k == fs.k && Jump(fs).0.k == fs.k
  {
  }

  lemma DischargeConsts(fs: FS, d: Desc, reg: nat)
    ensures Discharge2Reg(fs, d, reg).0.k == fs.k
  {
  }

  lemma Exp2RegConsts(fs: FS, d: Desc, reg: nat)
    ensures Exp2Reg(fs, d, reg).0.k == fs.k
  {
    hide Discharge2Reg, PatchList, NeedValue, TooFar;
    DischargeConsts(fs, d, reg);
  }

  lemma AnyRegConsts(fs: FS, d: Desc)
    ensures Exp2AnyReg(fs, d).0.k == fs.k
  {
    hide Exp2Reg;
    var d1 := DischargeVars(d);
    Exp2RegConsts(fs, d1, if d1.k.VNonReloc? then d1.k.r else 0);
    Exp2RegConsts(Reserve(FreeExp(fs, d1), 1), d1, FreeExp(fs, d1).freereg);
  }

  /** luaK_exp2RK. */
  lemma OperandCorrect(x: Ctx, fs0: FS, fs: FS, d: Desc, e: Expr, k: seq<Value>)
    requires Correct(x, fs0, fs, d, Coding(e, k)) && Tidy(fs0.freereg, fs, d) && Formed(fs, d, e, k)
    requires !Exp2RK(fs, d).0.err && Exp2RK(fs, d).0.k <= x.k
    ensures IsOperand(Exp2RK(fs, d).1, Exp2RK(fs, d).2)
    ensures Correct(x, fs0, Exp2RK(fs, d).0, Exp2RK(fs, d).1, OperandSem(e, k))
    ensures Tidy(fs0.freereg, Exp2RK(fs, d).0, Exp2RK(fs, d).1)
    ensures Exp2RK(fs, d).0.k == FirstConsts(e, k)
  {
    hide Correct, Exp2AnyReg, AddK, Consts, Formed, InReg;
    FormKind(fs, d, e, k);
    assert fs.k == Consts(e, k) by { FormConsts(fs, d, e, k); }
    if d.t != [] || d.f != [] {
      ExitOperand(x, fs0, fs, d, e, k);
    } else {
      DischargeVarsStep(x, fs0, fs, d, Coding(e, k));
      var d1 := DischargeVars(d);
      if (d1.k.VTrue? || d1.k.VFalse?) && |fs.k| <= MAXINDEXRK {
        IndexFits(fs, Bool(d1.k.VTrue?));
        ConstantOperand(x, fs0, fs, d1, Coding(e, k));
        assert AddK(fs, Bool(d1.k.VTrue?)).0.k == WithConst(fs.k, Bool(d1.k.VTrue?)) by {
          AddedConst(fs, Bool(d1.k.VTrue?));
        }
      } else if d1.k.VK? && d1.k.k <= MAXINDEXRK {
      } else {
        AnyRegCorrect(x, fs0, fs, d1, Coding(e, k));
        AnyRegConsts(fs, d1);
        var (fs2, d2) := Exp2AnyReg(fs, d1);
        if !InPlace(d1) { RegOperand(x, fs0, fs2, d2, e, k); }
        WellFormed(x, fs0, fs2, d2, OperandSem(e, k));
        KindReg(fs2, d2);
      }
    }
  }

  lemma FormConsts(fs: FS, d: Desc, e: Expr, k: seq<Value>)
    requires Formed(fs, d, e, k)
    ensures fs.k == Consts(e, k)
  {
  }

  lemma AddedConst(fs: FS, v: Value)
    ensures AddK(fs, v).0.k == WithConst(fs.k, v)
  {
  }

  lemma IndexFits(fs: FS, v: Value)
    ensures AddK(fs, v).1 <= |fs.k|
  {
  }

  /** An operand is its own operand. */
  lemma OperandAgain(fs: FS, d: Desc, o: nat)
    requires IsOperand(d, o)
    ensures Exp2RK(fs, d) == (fs, d, o)
  {
  }

  lemma OperandValue(x: Ctx, fs: FS, d: Desc, o: nat, v: Value, r: Regs)
    requires IsOperand(d, o) && FallGood(x, fs, d, v, r)
    ensures RK(x, r, o) == v
  {
  }

  lemma OperandKept(x: Ctx, d: Desc, o: nat, r: Regs, r2: Regs, n: nat)
    requires IsOperand(d, o) && Same(r, r2, n) && (d.k.VNonReloc? ==> d.k.r < n)
    ensures RK(x, r2, o) == RK(x, r, o)
  {
  }

  // ----- two operands and the instruction that uses them

  ghost predicate Operands(x: Ctx, fs0: FS, fs1: FS, d1: Desc, s1: Sem, o1: nat, fs2: FS, d2: Desc, s2: Sem, o2: nat) {
    && Correct(x, fs0, fs1, d1, s1) && IsOperand(d1, o1)
    && Correct(x, fs1, fs2, d2, s2) && IsOperand(d2, o2)
    && fs0.nactvar <= fs0.freereg <= fs1.freereg && ScopedSem(s2, fs0.nactvar)
    && (d1.k.VNonReloc? ==> d1.k.r < fs1.freereg)
  }

  /** fs3 adds an instruction whose result or condition, d3, is what the operands' values give. */
  ghost predicate Uses(x: Ctx, how: How, o1: nat, fs2: FS, d2: Desc, o2: nat, fs3: FS, d3: Desc) {
    && Moves(fs2, d2, fs3, d3) && d3.t == [] && d3.f == [] && fs3.jpc == []
    && End(fs2, d2) == End(fs3, d3)
    && LandAt(fs3.code, Pend(fs3, d3), fs2.jpc, End(fs2, d2))
    && forall r3 :: FallGood(x, fs3, d3, Apply(x.ops, how, RK(x, r3, o1), RK(x, r3, o2)), r3)
  }

  lemma OperandsMoves(x: Ctx, fs0: FS, fs1: FS, d1: Desc, s1: Sem, o1: nat, fs2: FS, d2: Desc, s2: Sem, o2: nat,
                      fs3: FS, d3: Desc)
    requires Operands(x, fs0, fs1, d1, s1, o1, fs2, d2, s2, o2) && Moves(fs2, d2, fs3, d3)
    ensures Moves(fs1, d1, fs3, d3) && End(fs1, d1) == |fs1.code|
  {
    hide Runs, Evolves;
    assert Pend(fs1, d1) == Set(fs1.jpc) by { assert [] + [] + fs1.jpc == fs1.jpc; }
    EvolvesTrans(fs1.code, Set(fs1.jpc), fs2.code, Pend(fs2, d2), fs3.code, Pend(fs3, d3), |fs1.code|, End(fs2, d2));
  }

  /** What arrives after both operands has both values. */
  lemma UseGood(x: Ctx, how: How, v: Value, d1: Desc, o1: nat, fs2: FS, d2: Desc, o2: nat, fs3: FS, d3: Desc,
                w: Way, free: nat, r2: Regs, o: Out)
    requires IsOperand(d1, o1) && IsOperand(d2, o2) && (d1.k.VNonReloc? ==> d1.k.r < free)
    requires Uses(x, how, o1, fs2, d2, o2, fs3, d3)
    requires RK(x, r2, o1) == v
    ensures StepGood(x, fs2, d2, w, fs3, d3, Falls(Apply(x.ops, how, v, Delivered(w)), Nothing), free, r2, o)
  {
    hide FallGood, Same, RK, IsOperand, Uses, Good, Cont, Apply;
    UsesParts(x, how, o1, fs2, d2, o2, fs3, d3);
    if Good(x, fs2, d2, w, free, r2, o) {
      OperandLists(d2, o2);
      PlainOut(x, fs2, d2, w, free, r2, o);
      OperandValue(x, fs2, d2, o2, w.v, o.r);
      OperandKept(x, d1, o1, r2, o.r, free);
      UsesFall(x, how, o1, fs2, d2, o2, fs3, d3, o.r);
      LandOut(x, fs2, d2, fs3, d3, Apply(x.ops, how, v, w.v), free, r2, o);
    }
  }

  lemma UsesParts(x: Ctx, how: How, o1: nat, fs2: FS, d2: Desc, o2: nat, fs3: FS, d3: Desc)
    requires Uses(x, how, o1, fs2, d2, o2, fs3, d3)
    ensures 0 <= End(fs2, d2) == End(fs3, d3) && LandAt(fs3.code, Pend(fs3, d3), fs2.jpc, End(fs2, d2))
    ensures d3.t == [] && d3.f == []
  {
    hide FallGood, RK, LandAt, WF, Evolves, Apply;
  }

  lemma UsesFall(x: Ctx, how: How, o1: nat, fs2: FS, d2: Desc, o2: nat, fs3: FS, d3: Desc, r3: Regs)
    requires Uses(x, how, o1, fs2, d2, o2, fs3, d3)
    ensures FallGood(x, fs3, d3, Apply(x.ops, how, RK(x, r3, o1), RK(x, r3, o2)), r3)
  {
    hide FallGood, RK, LandAt, Moves, Apply;
  }

  /** A good outcome of a description without exits. */
  lemma PlainOut(x: Ctx, fs: FS, d: Desc, w: Way, free: nat, r: Regs, o: Out)
    requires Good(x, fs, d, w, free, r, o) && d.t == [] && d.f == []
    ensures (o.Fall? || (o.Exit? && o.pc in fs.jpc)) && Same(r, o.r, free) && w.Falls? && FallGood(x, fs, d, w.v, o.r)
    ensures w.h == if o.Fall? then Nothing else HeldBy(fs.code, o.pc, o.r)
  {
    hide FallGood, Same, HeldBy;
  }

  /** An outcome that arrives at the end of code that ends there too. */
  lemma LandOut(x: Ctx, fs2: FS, d2: Desc, fs3: FS, d3: Desc, v: Value, free: nat, r: Regs, o: Out)
    requires 0 <= End(fs2, d2) == End(fs3, d3) && LandAt(fs3.code, Pend(fs3, d3), fs2.jpc, End(fs2, d2))
    requires o.Fall? || (o.Exit? && o.pc in fs2.jpc)
    requires Same(r, o.r, free) && FallGood(x, fs3, d3, v, o.r)
    ensures Good(x, fs3, d3, Falls(v, Nothing), free, r,
                 Cont(x, fs3.code, Pend(fs3, d3), End(fs2, d2), o, End(fs3, d3)))
  {
    hide FallGood, Same, Carries;
    if o.Exit? { CarriesNothing(fs3.code, o.pc, o.r); }
  }

  lemma UsesEnd(fs2: FS, d2: Desc, fs3: FS, d3: Desc)
    requires Moves(fs2, d2, fs3, d3)
    ensures 0 <= End(fs2, d2) <= End(fs3, d3)
  {
    hide WF, Evolves;
  }

  lemma OperandLists(d: Desc, o: nat)
    requires IsOperand(d, o)
    ensures d.t == [] && d.f == []
  {
  }

  lemma MeansApplying(ops: Ops, v: Value, s: Sem, how: How, r: Regs, h: Held)
    ensures Means(ops, Applying(v, s, how), r, h) == Falls(Apply(ops, how, v, Delivered(Means(ops, s, r, h))), Nothing)
  {
  }

  /** With the first operand's value in place, the rest of the code. */
  lemma OperandRuns(x: Ctx, how: How, v: Value, fs1: FS, d1: Desc, o1: nat, fs2: FS, d2: Desc, s2: Sem, o2: nat,
                    fs3: FS, d3: Desc, r2: Regs)
    requires IsOperand(d1, o1) && IsOperand(d2, o2) && (d1.k.VNonReloc? ==> d1.k.r < fs1.freereg)
    requires Correct(x, fs1, fs2, d2, s2) && Uses(x, how, o1, fs2, d2, o2, fs3, d3)
    requires RK(x, r2, o1) == v
    ensures Runs(x, fs1, fs3, d3, Applying(v, s2, how), r2)
  {
    hide Runs, Shape, Moves, StepGood, RK, IsOperand, Means, LandAt, FallGood, Apply;
    assert Runs(x, fs1, fs2, d2, s2, r2);
    UsesEnd(fs2, d2, fs3, d3);
    forall h, o
      ensures StepGood(x, fs2, d2, Means(x.ops, s2, r2, h), fs3, d3, Means(x.ops, Applying(v, s2, how), r2, h),
                       fs1.freereg, r2, o)
    {
      UseGood(x, how, v, d1, o1, fs2, d2, o2, fs3, d3, Means(x.ops, s2, r2, h), fs1.freereg, r2, o);
      MeansApplying(x.ops, v, s2, how, r2, h);
    }
    TransferRuns(x, fs1, fs2, d2, s2, fs3, d3, Applying(v, s2, how), r2);
  }

  lemma SameLess(r: Regs, r2: Regs, m: nat, n: nat)
    requires Same(r, r2, n) && m <= n
    ensures Same(r, r2, m)
  {
  }

  lemma GoodFrom(x: Ctx, fs: FS, d: Desc, w: Way, n: nat, m: nat, r: Regs, r2: Regs, o: Out)
    requires Good(x, fs, d, w, n, r2, o) && Same(r, r2, m) && m <= n
    ensures Good(x, fs, d, w, m, r, o)
  {
    hide FallGood, HeldBy;
  }

  lemma RunsFrom(x: Ctx, fs1: FS, fs3: FS, d3: Desc, s: Sem, m: nat, r: Regs, d1: Desc, w: Way, o: Out)
    requires Good(x, fs1, d1, w, m, r, o) && d1.t == [] && d1.f == [] && End(fs1, d1) == |fs1.code|
    requires o != Bad && Runs(x, fs1, fs3, d3, s, o.r) && Same(r, o.r, m) && m <= fs1.freereg
    ensures 0 <= End(fs3, d3)
    ensures Good(x, fs3, d3, Means(x.ops, s, o.r, w.h), m, r,
                 Cont(x, fs3.code, Pend(fs3, d3), End(fs1, d1), o, End(fs3, d3)))
  {
    hide FallGood, HeldBy, Same, Exec, Leave, Means;
    PlainOut(x, fs1, d1, w, m, r, o);
    var w3 := Means(x.ops, s, o.r, w.h);
    if o.Fall? {
      GoodFrom(x, fs3, d3, w3, fs1.freereg, m, r, o.r, Exec(x, fs3.code, Pend(fs3, d3), |fs1.code|, o.r, End(fs3, d3)));
    } else {
      GoodFrom(x, fs3, d3, w3, fs1.freereg, m, r, o.r, Leave(x, fs3.code, Pend(fs3, d3), o.pc, o.r, End(fs3, d3)));
    }
  }

  lemma MeansCombining(ops: Ops, s1: Sem, s2: Sem, how: How, r: Regs, r2: Regs, h: Held, n: nat)
    requires Means(ops, s1, r, h).Falls? && ScopedSem(s2, n) && Same(r, r2, n)
    ensures var w := Means(ops, s1, r, h);
            Means(ops, Combining(s1, s2, how), r, h) == Means(ops, Applying(w.v, s2, how), r2, w.h)
  {
    hide Same, Apply, ScopedSem;
    MeansSame(ops, s2, r, r2, Means(ops, s1, r, h).h, n);
  }

  lemma OperandsGood(x: Ctx, fs0: FS, fs1: FS, d1: Desc, s1: Sem, o1: nat, fs2: FS, d2: Desc, s2: Sem, o2: nat,
                     fs3: FS, d3: Desc, how: How, r: Regs, h: Held, o: Out)
    requires Operands(x, fs0, fs1, d1, s1, o1, fs2, d2, s2, o2) && Uses(x, how, o1, fs2, d2, o2, fs3, d3)
    requires 0 <= End(fs1, d1) && 0 <= End(fs3, d3)
    ensures StepGood(x, fs1, d1, Means(x.ops, s1, r, h), fs3, d3, Means(x.ops, Combining(s1, s2, how), r, h),
                     fs0.freereg, r, o)
  {
    hide Runs, Moves, RK, Same, LandAt, FallGood, Uses, Correct, Good, Means, ScopedSem;
    var w := Means(x.ops, s1, r, h);
    if Good(x, fs1, d1, w, fs0.freereg, r, o) {
      PlainOut(x, fs1, d1, w, fs0.freereg, r, o);
      OperandValue(x, fs1, d1, o1, w.v, o.r);
      OperandRuns(x, how, w.v, fs1, d1, o1, fs2, d2, s2, o2, fs3, d3, o.r);
      SameLess(r, o.r, fs0.nactvar, fs0.freereg);
      MeansCombining(x.ops, s1, s2, how, r, o.r, h, fs0.nactvar);
      assert End(fs1, d1) == |fs1.code|;
      RunsFrom(x, fs1, fs3, d3, Applying(w.v, s2, how), fs0.freereg, r, d1, w, o);
    }
  }

  lemma OperandsStep(x: Ctx, fs0: FS, fs1: FS, d1: Desc, s1: Sem, o1: nat, fs2: FS, d2: Desc, s2: Sem, o2: nat,
                     fs3: FS, d3: Desc, how: How)
    requires Operands(x, fs0, fs1, d1, s1, o1, fs2, d2, s2, o2) && Uses(x, how, o1, fs2, d2, o2, fs3, d3)
    ensures Correct(x, fs0, fs3, d3, Combining(s1, s2, how))
  {
    hide StepGood, RK, Means, LandAt, FallGood, Correct, IsOperand, Moves, Apply;
    OperandsMoves(x, fs0, fs1, d1, s1, o1, fs2, d2, s2, o2, fs3, d3);
    UsesEnd(fs1, d1, fs3, d3);
    forall r: Regs, h, o: Out
      ensures StepGood(x, fs1, d1, Means(x.ops, s1, r, h), fs3, d3, Means(x.ops, Combining(s1, s2, how), r, h),
                       fs0.freereg, r, o)
    {
      OperandsGood(x, fs0, fs1, d1, s1, o1, fs2, d2, s2, o2, fs3, d3, how, r, h, o);
    }
    Transfer(x, fs0, fs1, d1, s1, fs3, d3, Combining(s1, s2, how));
  }

  // ----- codearith

  lemma ArithUses(x: Ctx, o1: nat, fs2: FS, d2: Desc, o2: nat, op: nat)
    requires WF(fs2, d2) && IsOperand(d2, o2) && !Code(fs2, Arith(op, 0, o1, o2)).err
    ensures Uses(x, ByArith(op), o1, fs2, d2, o2, Code(fs2, Arith(op, 0, o1, o2)), Desc(VReloc(|fs2.code|), [], []))
  {
    hide Code, Evolves, Pending, RK;
    var i := Arith(op, 0, o1, o2);
    var fs3, d3 := Code(fs2, i), Desc(VReloc(|fs2.code|), [], []);
    CodeStatic(fs2, d2, i);
    LoadShape(fs2, i);
    StillEnds(fs2.code, Pend(fs2, d2), fs3.code, Set(d2.t + d2.f), |fs2.code|);
    assert [] + [] + fs3.jpc == d2.t + d2.f == [];
    PendingNone(fs3.code);
  }

  lemma CompTests(x: Ctx, rel: CmpOp, o1: nat, o2: nat, r: Regs)
    ensures Bool(Passes(x, CompInstr(Comparison(rel).0, Comparison(rel).1, o1, o2), r))
            == Apply(x.ops, ByRel(rel), RK(x, r, o1), RK(x, r, o2))
  {
    hide RK;
  }

  /** The comparison codecomp emits: `>` and `>=` exchange the operands. */
  function CompInstr(kind: CmpKind, cond: bool, o1: nat, o2: nat): Instr {
    if !cond && kind != EQ then Cmp(kind, true, o2, o1) else Cmp(kind, cond, o1, o2)
  }

  lemma CompUses(x: Ctx, o1: nat, fs2: FS, d2: Desc, o2: nat, rel: CmpOp)
    requires var i := CompInstr(Comparison(rel).0, Comparison(rel).1, o1, o2);
             WF(fs2, d2) && IsOperand(d2, o2) && !CondJump(fs2, i).0.err
    ensures var i := CompInstr(Comparison(rel).0, Comparison(rel).1, o1, o2);
            Uses(x, ByRel(rel), o1, fs2, d2, o2, CondJump(fs2, i).0, Desc(VJmp(|fs2.code| + 1), [], []))
  {
    hide CondJump, RK, Passes, Apply, Comparison, WF, Moves, LandAt;
    var i := CompInstr(Comparison(rel).0, Comparison(rel).1, o1, o2);
    var fs3, d3 := CondJump(fs2, i).0, Desc(VJmp(|fs2.code| + 1), [], []);
    CompMoves(fs2, d2, o2, i);
    forall r3 ensures FallGood(x, fs3, d3, Apply(x.ops, ByRel(rel), RK(x, r3, o1), RK(x, r3, o2)), r3) {
      CompTests(x, rel, o1, o2, r3);
    }
  }

  lemma CompMoves(fs2: FS, d2: Desc, o2: nat, i: Instr)
    requires WF(fs2, d2) && IsOperand(d2, o2) && i.Cmp? && !CondJump(fs2, i).0.err
    ensures var fs3, d3 := CondJump(fs2, i).0, Desc(VJmp(|fs2.code| + 1), [], []);
            && Moves(fs2, d2, fs3, d3) && fs3.jpc == [] && End(fs2, d2) == End(fs3, d3)
            && LandAt(fs3.code, Pend(fs3, d3), fs2.jpc, End(fs2, d2))
            && |fs3.code| == |fs2.code| + 2 && fs3.code[|fs2.code|] == i
  {
    var fs3, d3 := CondJump(fs2, i).0, Desc(VJmp(|fs2.code| + 1), [], []);
    CondJumpStatic(fs2, d2, i);
    CondJumpCode(fs2, i);
    hide CondJump, Code, Evolves, Pending, LandAt;
    StillEnds(fs2.code, Pend(fs2, d2), fs3.code, Set(d2.t + d2.f), |fs2.code|);
    assert [] + [] + fs3.jpc == d2.t + d2.f == [];
    PendingNone(fs3.code);
  }

  lemma PendingNone(code: seq<Instr>)
    ensures Pending(code, [])
  {
  }
}
