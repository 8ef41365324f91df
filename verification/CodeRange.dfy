/** The jumps of generated code are in range, unless the generator has raised its error. */
module CodeRange {
  import opened LuaCode
  import opened CodeLists
  import opened CodeMeaning
  import opened CodeState
  import opened CodeLoad
  import opened CodeClose
  import opened CodeExp2
  import opened CodeNegate
  import opened CodeGoIf
  import opened CodeOperand
  import opened CodeTheorem
  import opened CodeRun
  import opened CodeLimits

  /** The operand of every jump fits 18 bits. */
  ghost predicate Fit(code: seq<Instr>) {
    forall i :: 0 <= i < |code| && code[i].Jmp? ==> -131071 <= code[i].sbx <= 131071
  }

  lemma PatchFit(code: seq<Instr>, l: seq<nat>, v: nat, reg: nat, d: nat)
    requires Fit(code) && Pending(code, l) && !TooFar(code, l, v, d)
    ensures Fit(PatchList(code, l, v, reg, d))
  {
    PatchListAt(code, l, v, reg, d);
    var c := PatchList(code, l, v, reg, d);
    forall i | 0 <= i < |c| && c[i].Jmp? ensures -131071 <= c[i].sbx <= 131071 {
      assert PatchedAt(code, c, l, v, reg, d, i);
      if i in l {
        var j :| 0 <= j < |l| && l[j] == i;
      }
    }
  }

  lemma CodeFit(fs: FS, i: Instr)
    requires Fit(fs.code) && Pending(fs.code, fs.jpc) && !Code(fs, i).err && !i.Jmp?
    ensures Fit(Code(fs, i).code) && Code(fs, i).jpc == []
  {
    var n := |fs.code|;
    PatchFit(fs.code, fs.jpc, n, NO_REG, n);
    hide PatchList;
  }

  lemma ChainFit(fs: FS, a: seq<nat>, b: seq<nat>)
    requires Fit(fs.code) && !Chain(fs, a, b).err
    ensures Fit(Chain(fs, a, b).code)
  {
  }

  lemma JumpFit(fs: FS)
    requires Fit(fs.code) && !Jump(fs).0.err
    ensures Fit(Jump(fs).0.code) && Jump(fs).0.jpc == []
  {
    ChainFit(fs.(code := fs.code + [Jmp(NO_JUMP)], jpc := []), [|fs.code|], fs.jpc);
    hide Concat;
  }

  lemma HereFit(fs: FS, l: seq<nat>)
    requires Fit(fs.code) && !PatchToHere(fs, l).err
    ensures Fit(PatchToHere(fs, l).code)
  {
    ChainFit(fs, fs.jpc, l);
    hide Concat;
  }

  lemma CondFit(fs: FS, i: Instr)
    requires Fit(fs.code) && Pending(fs.code, fs.jpc) && !CondJump(fs, i).0.err && !i.Jmp?
    ensures Fit(CondJump(fs, i).0.code)
  {
    CondErr(fs, i);
    CodeFit(fs, i);
    JumpFit(Code(fs, i));
  }

  lemma LoadFit(fs: FS, d: Desc, reg: nat)
    requires Fit(fs.code) && Pending(fs.code, fs.jpc) && !Discharge2Reg(fs, d, reg).0.err
    ensures Fit(Discharge2Reg(fs, d, reg).0.code)
  {
    forall i: Instr | !i.Jmp? && !Code(fs, i).err ensures Fit(Code(fs, i).code) { CodeFit(fs, i); }
    hide Code;
  }

  lemma MaterializeFit(fs: FS, jumped: bool, reg: nat)
    requires Fit(fs.code) && Pending(fs.code, fs.jpc) && !Materialize(fs, jumped, reg).err
    ensures Fit(Materialize(fs, jumped, reg).code)
  {
    var (fs1, fj) := if jumped then (fs, []) else Jump(fs);
    var fs2 := CodeLabel(fs1, reg, false, true);
    var fs3 := CodeLabel(fs2, reg, true, false);
    assert !fs3.err && !fs2.err && !fs1.err;
    if !jumped { JumpFit(fs); }
    hide Jump, Code;
    CodeFit(fs1, LoadBool(reg, false, true));
    CodeFit(fs2, LoadBool(reg, true, false));
    HereFit(fs3, fj);
  }

  lemma CloseFit(fs: FS, d: Desc, reg: nat, pf: nat, pt: nat)
    requires Fit(fs.code) && Pending(fs.code, d.t) && Pending(fs.code, d.f) && (forall j :: j in d.t ==> j !in d.f)
    requires !CloseLists(fs, d, reg, pf, pt).err
    ensures Fit(CloseLists(fs, d, reg, pf, pt).code)
  {
    var n := |fs.code|;
    PatchFit(fs.code, d.f, n, reg, pf);
    PatchOther(fs.code, d.f, n, reg, pf, d.t);
    PatchFit(PatchList(fs.code, d.f, n, reg, pf), d.t, n, reg, pt);
    hide PatchList, TooFar, Pending, Fit;
  }

  lemma LoadedWF(fs: FS, d: Desc, reg: nat)
    requires WF(fs, d) && !d.k.VJmp? && !d.k.VCond? && reg < MAXSTACK && !Discharge2Reg(fs, d, reg).0.err
    ensures var (fs1, d1) := Discharge2Reg(fs, d, reg); d1 == d.(k := VNonReloc(reg)) && WF(fs1, d1)
  {
    hide Pending, Code;
    match d.k
    case VTrue => LoadMoves(fs, d, LoadBool(reg, true, false), reg);
    case VFalse => LoadMoves(fs, d, LoadBool(reg, false, false), reg);
    case VK(k) => LoadMoves(fs, d, LoadK(reg, k), reg);
    case VReloc(pc) => LocateMoves(fs, d, reg);
    case VNonReloc(r) => if r != reg { LoadMoves(fs, d, Move(reg, r), reg); }
    case VLocal(r) =>
      if r != reg {
        LoadMoves(fs, d, Move(reg, r), reg);
      } else {
        assert All(fs, d.(k := VNonReloc(reg))) == All(fs, d);
      }
  }

  lemma MaterializePrefix(fs: FS, jumped: bool, reg: nat, l: seq<nat>)
    requires Pending(fs.code, l) && (jumped ==> fs.jpc == [])
    ensures Pending(Materialize(fs, jumped, reg).code, l)
  {
    MaterializeCode(fs, jumped, reg);
    hide Materialize, Pending;
    PrefixSame(fs.code, Materialize(fs, jumped, reg).code, l);
  }

  lemma ClosedFit(fs: FS, d: Desc, reg: nat, jumped: bool)
    requires WF(fs, d) && Fit(fs.code) && (jumped ==> fs.jpc == [])
    requires !Closed(fs, d, reg, jumped).err
    ensures Fit(Closed(fs, d, reg, jumped).code)
  {
    Split(fs, d);
    hide WF, Pending, Fit, CloseLists, Materialize, NeedValue;
    if NeedValue(fs.code, d.t) || NeedValue(fs.code, d.f) {
      var n := |fs.code| + if jumped then 0 else 1;
      var fs1 := Materialize(fs, jumped, reg);
      MaterializePrefix(fs, jumped, reg, d.t);
      MaterializePrefix(fs, jumped, reg, d.f);
      assert !fs1.err by { CloseErr(fs1, d, reg, n, n + 1); }
      MaterializeFit(fs, jumped, reg);
      CloseFit(fs1, d, reg, n, n + 1);
    } else {
      CloseFit(fs, d, reg, 0, 0);
    }
  }

  lemma CloseErr(fs: FS, d: Desc, reg: nat, pf: nat, pt: nat)
    requires !CloseLists(fs, d, reg, pf, pt).err
    ensures !fs.err
  {
  }

  lemma JumpedRegIs(fs: FS, d: Desc, reg: nat)
    requires d.k.VJmp?
    ensures Exp2Reg(fs, d, reg).0 == Closed(Chain(fs, d.t, [d.k.pc]), Joined(fs, d), reg, true)
  {
    hide CloseLists, Materialize, NeedValue, Chain;
    CloseSame(Chain(fs, d.t, [d.k.pc]), JoinJump(fs, d).1, Joined(fs, d), reg, true);
  }

  lemma LoadedRegIs(fs: FS, d: Desc, reg: nat)
    requires !d.k.VJmp? && !d.k.VCond?
    ensures var (fs1, d1) := Discharge2Reg(fs, d, reg);
            Exp2Reg(fs, d, reg).0 == if d1.t == [] && d1.f == [] then fs1 else Closed(fs1, d1, reg, false)
  {
    hide CloseLists, Materialize, NeedValue, Code;
  }

  lemma JumpedRegFit(fs: FS, d: Desc, reg: nat)
    requires WF(fs, d) && d.k.VJmp? && Fit(fs.code) && reg < MAXSTACK && !Exp2Reg(fs, d, reg).0.err
    ensures Fit(Exp2Reg(fs, d, reg).0.code)
  {
    assert fs.jpc == [];
    hide WF, Fit, Closed, Chain, Exp2Reg;
    JumpedRegIs(fs, d, reg);
    var fs2 := Chain(fs, d.t, [d.k.pc]);
    ClosedErr(fs2, Joined(fs, d), reg, true);
    ChainFit(fs, d.t, [d.k.pc]);
    JoinMoves(fs, d);
    ChainJpc(fs, d.t, [d.k.pc]);
    ClosedFit(fs2, Joined(fs, d), reg, true);
  }

  lemma ClosedErr(fs: FS, d: Desc, reg: nat, jumped: bool)
    requires !Closed(fs, d, reg, jumped).err
    ensures !fs.err
  {
    hide CloseLists, Materialize, NeedValue;
  }

  lemma Exp2RegFit(fs: FS, d: Desc, reg: nat)
    requires WF(fs, d) && !d.k.VCond? && Fit(fs.code) && reg < MAXSTACK && !Exp2Reg(fs, d, reg).0.err
    ensures Fit(Exp2Reg(fs, d, reg).0.code)
  {
    assert Pending(fs.code, fs.jpc) by { Split(fs, d); }
    hide WF, Pending, Fit, Closed, Exp2Reg, Discharge2Reg;
    if d.k.VJmp? {
      JumpedRegFit(fs, d, reg);
    } else {
      LoadedRegIs(fs, d, reg);
      var (fs1, d1) := Discharge2Reg(fs, d, reg);
      if d1.t != [] || d1.f != [] { ClosedErr(fs1, d1, reg, false); }
      LoadFit(fs, d, reg);
      LoadedWF(fs, d, reg);
      if d1.t != [] || d1.f != [] { ClosedFit(fs1, d1, reg, false); }
    }
  }

  lemma CloseSame(fs: FS, d: Desc, d2: Desc, reg: nat, jumped: bool)
    requires d.t == d2.t && d.f == d2.f
    ensures Closed(fs, d, reg, jumped) == Closed(fs, d2, reg, jumped)
  {
    hide Materialize, PatchList, TooFar, NeedValue;
  }

  lemma SameWF(fs: FS, d: Desc, fs2: FS)
    requires WF(fs, d) && fs2 == fs.(freereg := fs2.freereg, k := fs2.k) && fs.k <= fs2.k
    ensures WF(fs2, d)
  {
    hide Pending;
    assert All(fs2, d) == All(fs, d);
  }

  lemma VarsWF(fs: FS, d: Desc)
    requires WF(fs, d)
    ensures WF(fs, DischargeVars(d))
  {
    hide Pending;
    assert All(fs, DischargeVars(d)) == All(fs, d);
  }

  lemma NextRegFit(fs: FS, d: Desc)
    requires WF(fs, d) && !d.k.VCond? && Fit(fs.code) && !Exp2NextReg(fs, d).0.err
    ensures Fit(Exp2NextReg(fs, d).0.code)
  {
    VarsWF(fs, d);
    var d1 := DischargeVars(d);
    var fs1 := FreeExp(fs, d1);
    FreeOnly(fs, d1);
    FreeOnly(fs1, d1);
    assert !Reserve(fs1, 1).err && !fs1.err;
    hide WF, Fit, Exp2Reg;
    SameWF(fs, d1, Reserve(fs1, 1));
    Exp2RegFit(Reserve(fs1, 1), d1, fs1.freereg);
  }

  lemma AnyFit(fs: FS, d: Desc)
    requires WF(fs, d) && !d.k.VCond? && Fit(fs.code) && !Exp2AnyReg(fs, d).0.err
    ensures Fit(Exp2AnyReg(fs, d).0.code)
  {
    VarsWF(fs, d);
    var d1 := DischargeVars(d);
    assert d1.k.VNonReloc? ==> d1.k.r < MAXSTACK;
    hide WF, Fit, Exp2Reg, Exp2NextReg;
    if d1.k.VNonReloc? && d1.t == [] && d1.f == [] {
    } else if d1.k.VNonReloc? && d1.k.r >= fs.nactvar {
      Exp2RegFit(fs, d1, d1.k.r);
    } else {
      NextRegFit(fs, d);
    }
  }

  lemma OperandFit(fs: FS, d: Desc)
    requires WF(fs, d) && !d.k.VCond? && Fit(fs.code) && !Exp2RK(fs, d).0.err
    ensures Fit(Exp2RK(fs, d).0.code)
  {
    VarsWF(fs, d);
    var d1 := DischargeVars(d);
    hide WF, Fit, Exp2AnyReg, AddK;
    if d.t != [] || d.f != [] {
      RKExits(fs, d);
      assert Exp2RK(fs, d).0 == Exp2AnyReg(fs, d).0;
      AnyFit(fs, d);
    } else if (d1.k.VTrue? || d1.k.VFalse?) && |fs.k| <= MAXINDEXRK {
      assert Exp2RK(fs, d).0 == AddK(fs, Bool(d1.k.VTrue?)).0;
    } else if d1.k.VK? && d1.k.k <= MAXINDEXRK {
    } else {
      assert Exp2RK(fs, d).0 == Exp2AnyReg(fs, d1).0;
      AnyFit(fs, d1);
    }
  }

  lemma AnyLoadFit(fs: FS, d: Desc)
    requires WF(fs, d) && !d.k.VCond? && !d.k.VJmp? && Fit(fs.code) && !Discharge2AnyReg(fs, d).0.err
    ensures var (fs1, d1) := Discharge2AnyReg(fs, d); Fit(fs1.code) && Pending(fs1.code, fs1.jpc)
  {
    FreeOnly(fs, d);
    var fs0 := Reserve(fs, 1);
    if d.k.VNonReloc? {
      Split(fs, d);
    } else {
      DischargeErr(fs0, d, fs.freereg);
      assert fs.freereg < MAXSTACK;
      SameWF(fs, d, fs0);
      Split(fs0, d);
      LoadedWF(fs0, d, fs.freereg);
      hide WF, Fit, Pending, Code;
      LoadFit(fs0, d, fs.freereg);
      Split(Discharge2Reg(fs0, d, fs.freereg).0, Discharge2Reg(fs0, d, fs.freereg).1);
    }
  }

  lemma OnCondFit(fs: FS, d: Desc, cond: bool)
    requires WF(fs, d) && !d.k.VCond? && !d.k.VJmp? && Fit(fs.code) && !JumpOnCond(fs, d, cond).0.err
    ensures Fit(JumpOnCond(fs, d, cond).0.code)
  {
    WFInside(fs, d);
    if d.k.VReloc? && fs.code[d.k.pc].Not? {
      var fs1 := fs.(code := fs.code[..|fs.code| - 1]);
      assert Fit(fs1.code) && Pending(fs1.code, fs1.jpc);
      CondFit(fs1, Test(fs.code[d.k.pc].b, !cond));
    } else {
      var (fs1, d1) := Discharge2AnyReg(fs, d);
      FreeOnly(fs1, d1);
      var i := TestSet(NO_REG, if d1.k.VNonReloc? then d1.k.r else 0, cond);
      hide WF, Fit, Pending, CondJump, Discharge2AnyReg;
      assert !fs1.err by { CondErr(FreeExp(fs1, d1), i); }
      AnyLoadFit(fs, d);
      CondFit(FreeExp(fs1, d1), i);
    }
  }

  lemma InvertFit(code: seq<Instr>, pc: nat)
    requires Fit(code)
    ensures Fit(InvertJump(code, pc))
  {
  }

  lemma GoIfFit(fs: FS, d: Desc, truth: bool)
    requires WF(fs, d) && !d.k.VCond? && Fit(fs.code) && !GoIf(fs, d, truth).0.err
    ensures Fit(GoIf(fs, d, truth).0.code)
  {
    VarsWF(fs, d);
    var d1 := DischargeVars(d);
    hide WF, Fit, InvertJump, JumpOnCond, Jump, Chain, PatchToHere;
    var (fs1, l) := CondJumpOf(fs, d1, !truth);
    var own := if truth then d1.f else d1.t;
    var here := if truth then d1.t else d1.f;
    GoIfErr(fs1, own, l, here);
    assert Fit(fs1.code) by {
      if d1.k.VJmp? {
        InvertFit(fs.code, d1.k.pc);
      } else {
        if !JumpOnCond(fs, d1, !truth).0.err { OnCondFit(fs, d1, !truth); }
      }
      if !Jump(fs).0.err { JumpFit(fs); }
    }
    ChainFit(fs1, own, l);
    HereFit(Chain(fs1, own, l), here);
  }

  lemma {:induction false} RemoveFit(code: seq<Instr>, l: seq<nat>)
    requires Fit(code)
    ensures Fit(RemoveValues(code, l))
    decreases |l|
  {
    if l != [] {
      assert Fit(PatchTestReg(code, l[0], NO_REG));
      RemoveFit(PatchTestReg(code, l[0], NO_REG), l[1..]);
    }
  }

  lemma NotFit(fs: FS, d: Desc)
    requires WF(fs, d) && !d.k.VCond? && Fit(fs.code) && !CodeNot(fs, d).0.err
    ensures Fit(CodeNot(fs, d).0.code)
  {
    VarsWF(fs, d);
    var d1 := DischargeVars(d);
    hide WF, Fit, InvertJump, Discharge2AnyReg, RemoveValues, Code;
    var (fs1, k) := NotValue(fs, d1);
    assert Fit(fs1.code) by {
      if d1.k.VJmp? {
        InvertFit(fs.code, d1.k.pc);
      } else if d1.k.VNonReloc? || d1.k.VReloc? {
        var (fs2, d2) := Discharge2AnyReg(fs, d1);
        var fs3, i := FreeExp(fs2, d2), Not(0, if d2.k.VNonReloc? then d2.k.r else 0);
        FreeOnly(fs2, d2);
        assert !fs3.err by { CodeErr(fs3, i); }
        AnyLoadFit(fs, d1);
        CodeFit(fs3, i);
      }
    }
    RemoveFit(fs1.code, d1.t);
    RemoveFit(RemoveValues(fs1.code, d1.t), d1.f);
  }

  lemma JoinFit(fs: FS, d1: Desc, d2: Desc, truth: bool)
    requires Fit(fs.code) && !Join(truth, fs, d1, d2).0.err
    ensures Fit(Join(truth, fs, d1, d2).0.code)
  {
    hide Chain, Fit;
    if truth { ChainFit(fs, d2.f, d1.f); } else { ChainFit(fs, d2.t, d1.t); }
  }

  /** The second operand and the instruction that uses both. */
  lemma TwoFit(fs2: FS, b: Expr, d1: Desc, o1: nat)
    requires Start(fs2) && Scoped(b, fs2.nactvar) && !Compile(fs2, b).0.err && Fit(Compile(fs2, b).0.code)
    requires IsOperand(d1, o1)
    ensures var (fs3, d2) := Compile(fs2, b);
            && (forall op: nat :: !CodeArith(fs3, op, d1, d2).0.err ==> Fit(CodeArith(fs3, op, d1, d2).0.code))
            && (forall kind, cond ::
                  !CodeComp(fs3, kind, cond, d1, d2).0.err ==> Fit(CodeComp(fs3, kind, cond, d1, d2).0.code))
  {
    hide Compile, Start, Tidy, Formed, WF, Exp2RK, FirstConsts, Code, CondJump, IsOperand, Free2, Fit, Pending;
    var (fs3, d2) := Compile(fs2, b);
    CompileSettled(fs2, b);
    NotCond(fs2, b);
    var (fs4, e2, o2) := Exp2RK(fs3, d2);
    if !fs4.err {
      OperandFit(fs3, d2);
      OperandPending(fs2, b);
    }
    forall op: nat | !CodeArith(fs3, op, d1, d2).0.err ensures Fit(CodeArith(fs3, op, d1, d2).0.code) {
      ArithIs(fs3, op, d1, o1, d2);
      FreedOnly(fs4, d1, o1, e2, o2);
      CodeLength(Freed(fs4, d1, o1, e2, o2), Arith(op, 0, o1, o2));
      CodeFit(Freed(fs4, d1, o1, e2, o2), Arith(op, 0, o1, o2));
    }
    forall kind, cond | !CodeComp(fs3, kind, cond, d1, d2).0.err ensures Fit(CodeComp(fs3, kind, cond, d1, d2).0.code) {
      OperandAgain(fs3, d1, o1);
      Frees(fs4, e2, d1);
      var i := if !cond && kind != EQ then Cmp(kind, true, o2, o1) else Cmp(kind, cond, o1, o2);
      CodeLength(Free2(fs4, e2, d1), i);
      CondFit(Free2(fs4, e2, d1), i);
    }
  }

  lemma NotCond(fs0: FS, e: Expr)
    requires Start(fs0) && Scoped(e, fs0.nactvar) && !Compile(fs0, e).0.err
    ensures !Compile(fs0, e).1.k.VCond?
  {
    hide Compile, Start, Tidy, Formed, Correct;
    CompileCorrect(AnyCtx(Compile(fs0, e).0.k), fs0, e);
  }

  lemma ControlFit(fs0: FS, a: Expr, truth: bool)
    requires Start(fs0) && Scoped(a, fs0.nactvar) && !GoIf(Compile(fs0, a).0, Compile(fs0, a).1, truth).0.err
    requires !Compile(fs0, a).0.err && Fit(Compile(fs0, a).0.code)
    ensures var fs2 := GoIf(Compile(fs0, a).0, Compile(fs0, a).1, truth).0;
            Start(fs2) && fs2.nactvar == fs0.nactvar && Fit(fs2.code)
  {
    hide Compile, Start, Tidy, Formed, WF, GoIf, Fit;
    var (fs1, d) := Compile(fs0, a);
    CompileSettled(fs0, a);
    NotCond(fs0, a);
    GoIfFit(fs1, d, truth);
    CompileCorrect(AnyCtx(fs1.k), fs0, a);
    ControlStart(AnyCtx(fs1.k), fs0, fs1, d, a, truth);
  }

  lemma FirstFit(fs0: FS, a: Expr)
    requires Start(fs0) && Scoped(a, fs0.nactvar) && !Exp2RK(Compile(fs0, a).0, Compile(fs0, a).1).0.err
    requires !Compile(fs0, a).0.err && Fit(Compile(fs0, a).0.code)
    ensures var (fs2, d1, o1) := Exp2RK(Compile(fs0, a).0, Compile(fs0, a).1);
            Start(fs2) && fs2.nactvar == fs0.nactvar && Fit(fs2.code) && IsOperand(d1, o1)
  {
    hide Compile, Start, Tidy, Formed, WF, Exp2RK, Fit, FirstConsts;
    var (fs1, d) := Compile(fs0, a);
    var fs2 := Exp2RK(fs1, d).0;
    CompileSettled(fs0, a);
    NotCond(fs0, a);
    OperandFit(fs1, d);
    CompileCorrect(AnyCtx(fs2.k), fs0, a) by { assert fs1.k <= fs2.k; }
    OperandStart(AnyCtx(fs2.k), fs0, fs1, d, a);
  }

  /** Without an error no jump is out of range. */
  lemma {:induction false} CompileFit(fs0: FS, e: Expr)
    requires Start(fs0) && Scoped(e, fs0.nactvar) && Fit(fs0.code) && !Compile(fs0, e).0.err
    ensures Fit(Compile(fs0, e).0.code)
    decreases e
  {
    hide GoIfTrue, GoIfFalse, JoinFalse, JoinTrue, CodeNot, CodeArith, CodeComp, Exp2RK, Start, Comparison, IsOperand,
         Fit, WF;
    match e
    case Negate(a) =>
      CompileFit(fs0, a);
      CompileSettled(fs0, a);
      NotCond(fs0, a);
      NotFit(Compile(fs0, a).0, Compile(fs0, a).1);
    case And(a, b) =>
      CompileFit(fs0, a);
      var (fs2, d1) := GoIf(Compile(fs0, a).0, Compile(fs0, a).1, true);
      ControlFit(fs0, a, true);
      CompileFit(fs2, b);
      JoinFit(Compile(fs2, b).0, d1, Compile(fs2, b).1, true);
    case Or(a, b) =>
      CompileFit(fs0, a);
      var (fs2, d1) := GoIf(Compile(fs0, a).0, Compile(fs0, a).1, false);
      ControlFit(fs0, a, false);
      CompileFit(fs2, b);
      JoinFit(Compile(fs2, b).0, d1, Compile(fs2, b).1, false);
    case Binary(op, a, b) =>
      CompileFit(fs0, a);
      var (fs2, d1, o1) := Exp2RK(Compile(fs0, a).0, Compile(fs0, a).1);
      FirstFit(fs0, a);
      CompileFit(fs2, b);
      TwoFit(fs2, b, d1, o1);
    case Relation(rel, a, b) =>
      CompileFit(fs0, a);
      var (fs2, d1, o1) := Exp2RK(Compile(fs0, a).0, Compile(fs0, a).1);
      FirstFit(fs0, a);
      CompileFit(fs2, b);
      TwoFit(fs2, b, d1, o1);
    case _ =>
  }

  /** ... in the finished code either. */
  lemma GenerateFit(fs0: FS, e: Expr)
    requires Start(fs0) && Scoped(e, fs0.nactvar) && Fit(fs0.code) && !Generate(fs0, e).err
    ensures Fit(Generate(fs0, e).code)
  {
    var (fs, d) := Compile(fs0, e);
    var fs1 := Exp2NextReg(fs, d).0;
    hide Compile, Exp2NextReg, Start, Tidy, Formed, WF, Code, Fit, Pending;
    assert !fs1.err by { CodeLength(fs1, Return); }
    NextErr(fs, d);
    CompileFit(fs0, e);
    CompileSettled(fs0, e);
    NotCond(fs0, e);
    NextRegFit(fs, d);
    NextPending(fs0, e);
    CodeFit(fs1, Return);
  }

}
