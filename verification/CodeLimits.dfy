/** When the generator raises no error: the registers and the jump distances an expression needs are within the limits
    of lcode.c, and only then. */
module CodeLimits {
  import opened LuaCode
  import opened CodeLists
  import opened CodeMeaning
  import opened CodeState
  import opened CodeLoad
  import opened CodeClose
  import opened CodeGoIf
  import opened CodeOperand
  import opened CodeTheorem
  import opened CodeRun

  // ----- what an expression needs

  /** An operand of arithmetic or of a comparison that needs no register of its own: a local variable, or a constant
      among the first 256, and nothing jumps to its end. */
  predicate Direct(e: Expr, k: seq<Value>) {
    && !HasExits(e, true) && !HasExits(e, false)
    && match FormOf(e)
       case AsLocal => true
       case AsConst(n) => IndexOf(k, Other(n)) <= 255
       case AsTrue => |k| <= 255
       case AsFalse => |k| <= 255
       case _ => false
  }

  function Max(a: nat, b: nat): nat { if a > b then a else b }

  /** The register an operand takes. */
  function Own(e: Expr, k: seq<Value>): nat { if Direct(e, Consts(e, k)) then 0 else 1 }

  /** A test of this value, jumping when it has the truth cond, takes a register: for the result of arithmetic, and
      for a constant, which luaK_goiffalse tests though it is true. */
  predicate Loads(f: Form, cond: bool) { f.AsResult? || (f.AsConst? && cond) }

  /** The registers that are in use at once, beyond those in use before, while the code for e is generated; k are the
      constants so far. A first operand keeps its register while the second is computed. */
  function Needs(e: Expr, k: seq<Value>): nat {
    match e
    case Negate(a) => Max(Needs(a, k), if FormOf(a).AsNot? || FormOf(a).AsResult? then 1 else 0)
    case And(a, b) => Max(Max(Needs(a, k), if Loads(FormOf(a), false) then 1 else 0), Needs(b, Consts(a, k)))
    case Or(a, b) => Max(Max(Needs(a, k), if Loads(FormOf(a), true) then 1 else 0), Needs(b, Consts(a, k)))
    case Binary(_, a, b) =>
      Max(Needs(a, k), Own(a, k) + Max(Needs(b, FirstConsts(a, k)), Own(b, FirstConsts(a, k))))
    case Relation(_, a, b) =>
      Max(Needs(a, k), Own(a, k) + Max(Needs(b, FirstConsts(a, k)), Own(b, FirstConsts(a, k))))
    case _ => 0
  }

  /** More than as many instructions as are generated. */
  function Length(e: Expr): nat {
    match e
    case Negate(a) => Length(a) + 1
    case And(a, b) => Length(a) + Length(b) + 3
    case Or(a, b) => Length(a) + Length(b) + 3
    case Binary(_, a, b) => Length(a) + Length(b) + 9
    case Relation(_, a, b) => Length(a) + Length(b) + 10
    case _ => 0
  }

  // ----- jumps that are not too far

  ghost predicate Under(l: seq<nat>, n: nat) { forall j :: j in l ==> j < n }

  lemma NotTooFar(code: seq<Instr>, l: seq<nat>, v: nat, d: nat)
    requires |code| <= 131071 && Under(l, |code|) && v <= |code| && d <= |code|
    ensures !TooFar(code, l, v, d)
  {
    forall i | 0 <= i < |l| ensures l[i] < |code| { assert l[i] in l; }
  }

  lemma CodeNear(fs: FS, i: Instr)
    requires |fs.code| <= 131071 && Under(fs.jpc, |fs.code|)
    ensures Code(fs, i).err == fs.err && |Code(fs, i).code| == |fs.code| + 1 && Code(fs, i).jpc == []
    ensures Code(fs, i).freereg == fs.freereg && Code(fs, i).nactvar == fs.nactvar
  {
    NotTooFar(fs.code, fs.jpc, |fs.code|, |fs.code|);
    hide TooFar;
  }

  lemma ChainNear(fs: FS, a: seq<nat>, b: seq<nat>)
    requires |fs.code| <= 131071 && Under(a, |fs.code|) && Under(b, |fs.code|)
    ensures var r := Chain(fs, a, b);
            r.err == fs.err && |r.code| == |fs.code| && r.jpc == fs.jpc && r.freereg == fs.freereg &&
              r.nactvar == fs.nactvar
  {
    if a != [] && b != [] { assert a[|a| - 1] in a && b[0] in b; }
  }

  lemma JumpNear(fs: FS)
    requires |fs.code| < 131071 && Under(fs.jpc, |fs.code|)
    ensures var (r, l) := Jump(fs);
            && r.err == fs.err && |r.code| == |fs.code| + 1 && r.jpc == [] && r.freereg == fs.freereg
            && r.nactvar == fs.nactvar && Under(l, |r.code|)
  {
    var n := |fs.code|;
    ChainNear(fs.(code := fs.code + [Jmp(NO_JUMP)], jpc := []), [n], fs.jpc);
    hide Chain;
  }

  lemma HereNear(fs: FS, l: seq<nat>)
    requires |fs.code| <= 131071 && Under(fs.jpc, |fs.code|) && Under(l, |fs.code|)
    ensures var r := PatchToHere(fs, l);
            && r.err == fs.err && |r.code| == |fs.code| && r.freereg == fs.freereg && r.nactvar == fs.nactvar
            && Under(r.jpc, |r.code|)
  {
    ChainNear(fs, fs.jpc, l);
    hide Chain;
  }

  lemma CondNear(fs: FS, i: Instr)
    requires |fs.code| < 131070 && Under(fs.jpc, |fs.code|)
    ensures var (r, l) := CondJump(fs, i);
            && r.err == fs.err && |r.code| == |fs.code| + 2 && r.jpc == [] && r.freereg == fs.freereg
            && r.nactvar == fs.nactvar && Under(l, |r.code|)
  {
    CodeNear(fs, i);
    JumpNear(Code(fs, i));
    hide Code, Jump;
  }

  lemma LoadNear(fs: FS, d: Desc, reg: nat)
    requires |fs.code| <= 131071 && Under(fs.jpc, |fs.code|)
    ensures var (r, d2) := Discharge2Reg(fs, d, reg);
            && r.err == fs.err && |fs.code| <= |r.code| <= |fs.code| + 1 && r.freereg == fs.freereg
            && r.nactvar == fs.nactvar && Under(r.jpc, |r.code|)
            && d2.t == d.t && d2.f == d.f && (d2.k.VJmp? ==> d2 == d)
  {
    forall i ensures Code(fs, i).err == fs.err && |Code(fs, i).code| == |fs.code| + 1 && Code(fs, i).jpc == []
      && Code(fs, i).freereg == fs.freereg && Code(fs, i).nactvar == fs.nactvar
    {
      CodeNear(fs, i);
    }
    hide Code;
  }

  lemma MaterializeNear(fs: FS, jumped: bool, reg: nat)
    requires |fs.code| <= 131060 && Under(fs.jpc, |fs.code|)
    ensures var r := Materialize(fs, jumped, reg);
            && r.err == fs.err && |r.code| == |fs.code| + (if jumped then 2 else 3) && r.freereg == fs.freereg
            && r.nactvar == fs.nactvar && Under(r.jpc, |r.code|)
  {
    JumpNear(fs);
    var (fs1, fj) := if jumped then (fs, []) else Jump(fs);
    CodeNear(fs1, LoadBool(reg, false, true));
    var fs2 := CodeLabel(fs1, reg, false, true);
    CodeNear(fs2, LoadBool(reg, true, false));
    hide Code, Jump;
    HereNear(CodeLabel(fs2, reg, true, false), fj);
  }

  lemma CloseNear(fs: FS, d: Desc, reg: nat, pf: nat, pt: nat)
    requires |fs.code| <= 131071 && Under(d.t, |fs.code|) && Under(d.f, |fs.code|) && pf <= |fs.code| && pt <= |fs.code|
    ensures var r := CloseLists(fs, d, reg, pf, pt);
            && r.err == fs.err && |r.code| == |fs.code| && r.freereg == fs.freereg && r.nactvar == fs.nactvar
            && r.jpc == fs.jpc
  {
    var n := |fs.code|;
    NotTooFar(fs.code, d.f, n, pf);
    NotTooFar(PatchList(fs.code, d.f, n, reg, pf), d.t, n, pt);
    hide TooFar;
  }

  lemma JoinNear(fs: FS, d: Desc)
    requires |fs.code| <= 131071 && Under(d.t, |fs.code|) && (d.k.VJmp? ==> d.k.pc < |fs.code|)
    ensures var (r, d2) := JoinJump(fs, d);
            && r.err == fs.err && |r.code| == |fs.code| && r.freereg == fs.freereg && r.nactvar == fs.nactvar
            && r.jpc == fs.jpc && Under(d2.t, |r.code|) && d2.f == d.f && d2.k == d.k
  {
    if d.k.VJmp? { ChainNear(fs, d.t, [d.k.pc]); }
    hide Chain;
  }

  /** The lists of a description, and the jump it stands for. */
  ghost predicate Inside(fs: FS, d: Desc) {
    Under(d.t, |fs.code|) && Under(d.f, |fs.code|) && Under(fs.jpc, |fs.code|) && (d.k.VJmp? ==> d.k.pc < |fs.code|)
  }

  lemma Exp2RegNear(fs: FS, d: Desc, reg: nat)
    requires |fs.code| <= 131050 && Inside(fs, d)
    ensures var (r, d2) := Exp2Reg(fs, d, reg);
            && r.err == fs.err && |r.code| <= |fs.code| + 4 && r.freereg == fs.freereg && r.nactvar == fs.nactvar
            && d2 == Desc(VNonReloc(reg), [], [])
  {
    hide Discharge2Reg, JoinJump, Materialize, CloseLists, NeedValue;
    LoadNear(fs, d, reg);
    var (fs1, d1) := Discharge2Reg(fs, d, reg);
    JoinNear(fs1, d1);
    var (fs2, d2) := JoinJump(fs1, d1);
    var n := |fs2.code| + if d1.k.VJmp? then 0 else 1;
    MaterializeNear(fs2, d1.k.VJmp?, reg);
    CloseNear(Materialize(fs2, d1.k.VJmp?, reg), d2, reg, n, n + 1);
    CloseNear(fs2, d2, reg, 0, 0);
  }

  // ----- an operand, a value in the next register

  /** luaK_exp2nextreg takes one register, unless the value is in a temporary. */
  lemma NextRegNear(fs: FS, d: Desc, free: nat)
    requires |fs.code| <= 131050 && Inside(fs, d) && Tidy(free, fs, d) && !fs.err
    ensures Exp2NextReg(fs, d).0.err <==> free + 1 >= 250
    ensures |Exp2NextReg(fs, d).0.code| <= |fs.code| + 4 && Exp2NextReg(fs, d).0.freereg == free + 1
  {
    var d1 := DischargeVars(d);
    var fs1 := Reserve(FreeExp(fs, d1), 1);
    hide Exp2Reg;
    Exp2RegNear(fs1, d1, FreeExp(fs, d1).freereg);
  }

  lemma WFInside(fs: FS, d: Desc)
    requires WF(fs, d)
    ensures Inside(fs, d) && !fs.err && (d.k.VReloc? ==> fs.jpc == [] && d.k.pc + 1 == |fs.code| && Inside(fs, d))
    ensures d.k.VReloc? ==> Under(d.t, d.k.pc) && Under(d.f, d.k.pc)
  {
    hide Pending;
    forall j | j in d.t || j in d.f || j in fs.jpc ensures j < End(fs, d) { assert j in All(fs, d); }
  }

  // ----- control

  /** jumponcond takes a register for the result of arithmetic. */
  lemma OnCondNear(fs: FS, d: Desc, f: Form, cond: bool, free: nat)
    requires WF(fs, d) && |fs.code| <= 131050 && Tidy(free, fs, d) && FormIs(fs, d, f)
    requires !d.k.VLocal? && (f.AsLocal? || f.AsNot? || f.AsResult? || f.AsConst?)
    ensures var (r, l) := JumpOnCond(fs, d, cond);
            && (r.err <==> (f.AsResult? || f.AsConst?) && free + 1 >= 250)
            && |r.code| <= |fs.code| + 3 && Under(l, |r.code|) && r.jpc == []
            && Under(d.t, |r.code|) && Under(d.f, |r.code|)
  {
    WFInside(fs, d);
    hide WF, CondJump, Code;
    if f.AsNot? {
      CondNear(fs.(code := fs.code[..|fs.code| - 1]), Test(fs.code[d.k.pc].b, !cond));
    } else {
      var (fs1, d1) := Discharge2AnyReg(fs, d);
      if !f.AsLocal? { LoadNear(Reserve(fs, 1), d, fs.freereg); }
      CondNear(FreeExp(fs1, d1), TestSet(NO_REG, if d1.k.VNonReloc? then d1.k.r else 0, cond));
    }
  }

  lemma CondOfNear(fs: FS, d: Desc, f: Form, cond: bool, free: nat)
    requires WF(fs, d) && |fs.code| <= 131050 && Tidy(free, fs, d) && FormIs(fs, d, f) && !d.k.VLocal?
    ensures var (r, l) := CondJumpOf(fs, d, cond);
            && (r.err <==> Loads(f, cond) && free + 1 >= 250)
            && |r.code| <= |fs.code| + 3 && Under(l, |r.code|) && Under(r.jpc, |r.code|)
            && Under(d.t, |r.code|) && Under(d.f, |r.code|)
  {
    WFInside(fs, d);
    hide WF, JumpOnCond, Jump;
    if f.AsLocal? || f.AsNot? || Loads(f, cond) {
      OnCondNear(fs, d, f, cond, free);
      assert CondJumpOf(fs, d, cond) == JumpOnCond(fs, d, cond);
    } else {
      JumpNear(fs);
    }
  }

  lemma GoIfNear(fs: FS, d: Desc, f: Form, truth: bool, free: nat)
    requires WF(fs, d) && |fs.code| <= 131050 && Tidy(free, fs, d) && FormIs(fs, d, f)
    ensures var (r, d2) := GoIf(fs, d, truth);
            && (r.err <==> Loads(f, !truth) && free + 1 >= 250)
            && |r.code| <= |fs.code| + 3 && Under(d2.t, |r.code|) && Under(d2.f, |r.code|)
  {
    var d1 := DischargeVars(d);
    assert WF(fs, d1) by { hide Pending; assert All(fs, d1) == All(fs, d); }
    CondOfNear(fs, d1, f, !truth, free);
    hide WF, FalseJump, TrueJump, Chain, PatchToHere;
    var (fs1, l) := CondJumpOf(fs, d1, !truth);
    var own := if truth then d1.f else d1.t;
    ChainNear(fs1, own, l);
    HereNear(Chain(fs1, own, l), if truth then d1.t else d1.f);
  }

  lemma JoinsNear(fs: FS, d1: Desc, d2: Desc, truth: bool)
    requires |fs.code| <= 131071 && Inside(fs, d2) && Under(d1.t, |fs.code|) && Under(d1.f, |fs.code|)
    ensures var r := Join(truth, fs, d1, d2).0; r.err == fs.err && |r.code| == |fs.code|
  {
    if truth { ChainNear(fs, d2.f, d1.f); } else { ChainNear(fs, d2.t, d1.t); }
    hide Chain;
  }

  lemma NotNear(fs: FS, d: Desc, f: Form, free: nat)
    requires WF(fs, d) && |fs.code| <= 131050 && Tidy(free, fs, d) && FormIs(fs, d, f)
    ensures var r := CodeNot(fs, d).0;
            && (r.err <==> (f.AsNot? || f.AsResult?) && free + 1 >= 250)
            && |r.code| <= |fs.code| + 1
  {
    WFInside(fs, d);
    hide WF, Code, RemoveValues;
    var d0 := DischargeVars(d);
    if !Literal(f) && !f.AsJump? {
      var (fs1, d1) := Discharge2AnyReg(fs, d0);
      if !f.AsLocal? { RelocNear(Reserve(fs, 1), d0, fs.freereg); }
      var fs2 := FreeExp(fs1, d1);
      CodeNear(fs2, Not(0, if d1.k.VNonReloc? then d1.k.r else 0));
    }
  }

  lemma RelocNear(fs: FS, d: Desc, reg: nat)
    requires d.k.VReloc?
    ensures var (r, d2) := Discharge2Reg(fs, d, reg);
            r == fs.(code := r.code) && |r.code| == |fs.code| && d2.k == VNonReloc(reg)
  {
  }

  // ----- operands

  /** luaK_exp2anyreg on what is not in a temporary. */
  lemma AnyNear(fs: FS, d: Desc, free: nat)
    requires WF(fs, d) && |fs.code| <= 131050 && Tidy(free, fs, d) && (d.k.VNonReloc? ==> d.k.r < fs.nactvar)
    ensures var r := Exp2AnyReg(fs, d).0;
            && (r.err <==> !InPlace(d) && free + 1 >= 250)
            && |r.code| <= |fs.code| + 4 && r.freereg == if InPlace(d) then free else free + 1
  {
    WFInside(fs, d);
    hide WF, Exp2NextReg, Exp2Reg;
    var d1 := DischargeVars(d);
    assert Exp2AnyReg(fs, d) == if InPlace(d) then (fs, d1) else Exp2NextReg(fs, d1);
    NextRegNear(fs, d1, free);
  }

  lemma DirectBare(e: Expr, k: seq<Value>)
    ensures Direct(e, k) <==> Bare(e, k)
  {
  }

  /** luaK_exp2RK takes a register for what is not direct. */
  lemma OperandNear(fs: FS, d: Desc, e: Expr, k: seq<Value>, free: nat)
    requires WF(fs, d) && |fs.code| <= 131050 && Tidy(free, fs, d) && Formed(fs, d, e, k)
    ensures var r := Exp2RK(fs, d).0;
            && (r.err <==> free + Own(e, k) >= 250)
            && |r.code| <= |fs.code| + 4 && r.freereg == free + Own(e, k)
  {
    WFInside(fs, d);
    FormKind(fs, d, e, k);
    FormConsts(fs, d, e, k);
    DirectBare(e, Consts(e, k));
    AnyNear(fs, d, free);
    var d1 := DischargeVars(d);
    assert WF(fs, d1) by { hide Pending; assert All(fs, d1) == All(fs, d); }
    AnyNear(fs, d1, free);
    assert free < 250;
    hide WF, Consts, Formed, Exp2AnyReg, Bare, Direct, Under;
    if d.t != [] || d.f != [] {
      RKExits(fs, d);
      assert Exp2RK(fs, d).0 == Exp2AnyReg(fs, d).0;
    } else if (d1.k.VTrue? || d1.k.VFalse?) && |fs.k| <= MAXINDEXRK {
      assert Exp2RK(fs, d).0 == AddK(fs, Bool(d1.k.VTrue?)).0;
    } else if d1.k.VK? && d1.k.k <= MAXINDEXRK {
      assert Exp2RK(fs, d).0 == fs;
    } else {
      assert Exp2RK(fs, d).0 == Exp2AnyReg(fs, d1).0;
    }
  }

  // ----- whole expressions

  function AnyCtx(k: seq<Value>): Ctx { Ctx(Ops((_, _, _) => Nil, (_, _) => false, (_, _) => false), k) }

  /** What is known of generated code, when there was no error. */
  ghost predicate Settled(fs0: FS, fs: FS, d: Desc, e: Expr) {
    && WF(fs, d) && Tidy(fs0.freereg, fs, d) && Formed(fs, d, e, fs0.k)
    && |fs0.code| <= |fs.code| && fs.nactvar == fs0.nactvar
  }

  lemma CompileSettled(fs0: FS, e: Expr)
    requires Start(fs0) && Scoped(e, fs0.nactvar) && !Compile(fs0, e).0.err
    ensures Settled(fs0, Compile(fs0, e).0, Compile(fs0, e).1, e)
  {
    hide Compile, Start, Tidy, Formed, Runs, WF;
    CompileCorrect(AnyCtx(Compile(fs0, e).0.k), fs0, e);
  }

  lemma PendingUnder(code: seq<Instr>, l: seq<nat>)
    requires Pending(code, l)
    ensures Under(l, |code|)
  {
  }

  lemma OperandPending(fs0: FS, a: Expr)
    requires Start(fs0) && Scoped(a, fs0.nactvar) && !Compile(fs0, a).0.err
    requires !Exp2RK(Compile(fs0, a).0, Compile(fs0, a).1).0.err
    ensures var fs2 := Exp2RK(Compile(fs0, a).0, Compile(fs0, a).1).0; Pending(fs2.code, fs2.jpc)
  {
    hide Compile, Tidy, Formed, WF, Exp2RK, FirstConsts, Pending;
    var (fs1, d) := Compile(fs0, a);
    var fs2 := Exp2RK(fs1, d).0;
    CompileCorrect(AnyCtx(fs2.k), fs0, a) by { assert fs1.k <= fs2.k; }
    OperandStart(AnyCtx(fs2.k), fs0, fs1, d, a);
  }

  lemma NextPending(fs0: FS, e: Expr)
    requires Start(fs0) && Scoped(e, fs0.nactvar) && !Compile(fs0, e).0.err
    requires !Exp2NextReg(Compile(fs0, e).0, Compile(fs0, e).1).0.err
    ensures var fs := Exp2NextReg(Compile(fs0, e).0, Compile(fs0, e).1).0; Pending(fs.code, fs.jpc)
  {
    hide Compile, Tidy, Formed, WF, Exp2NextReg, Pending, Start, Correct, Means;
    var (fs, d) := Compile(fs0, e);
    CompileCorrect(AnyCtx(fs.k), fs0, e);
    NextRegCorrect(AnyCtx(fs.k), fs0, fs, d, Coding(e, fs0.k));
    var (fs1, d1) := Exp2NextReg(fs, d);
    WellFormed(AnyCtx(fs.k), fs0, fs1, d1, NextSem(Coding(e, fs0.k), fs, d));
    Split(fs1, d1);
  }

  /** What happens to the errors of `and` and `or` after the first operand. */
  lemma BothLimit(fs0: FS, a: Expr, b: Expr, truth: bool)
    requires Start(fs0) && Scoped(a, fs0.nactvar) && Scoped(b, fs0.nactvar) && !Compile(fs0, a).0.err
    requires |Compile(fs0, a).0.code| <= 131000
    ensures var (fs1, d) := Compile(fs0, a);
            var (fs2, d1) := GoIf(fs1, d, truth);
            && (fs2.err <==> Loads(FormOf(a), !truth) && fs0.freereg + 1 >= 250)
            && |fs2.code| <= |fs1.code| + 3
            && (!fs2.err ==>
                  && Start(fs2) && fs2.nactvar == fs0.nactvar && fs2.freereg == fs0.freereg && fs2.k == Consts(a, fs0.k)
                  && var (fs3, d2) := Compile(fs2, b);
                  !fs3.err && |fs3.code| <= 131071 ==>
                    !Join(truth, fs3, d1, d2).0.err && |Join(truth, fs3, d1, d2).0.code| == |fs3.code|)
  {
    hide Compile, Start, Tidy, FormIs, WF, GoIf, Consts, Join, Loads, HasExits;
    var (fs1, d) := Compile(fs0, a);
    CompileSettled(fs0, a);
    FormedIs(fs1, d, a, fs0.k);
    GoIfNear(fs1, d, FormOf(a), truth, fs0.freereg);
    var (fs2, d1) := GoIf(fs1, d, truth);
    if !fs2.err {
      CompileCorrect(AnyCtx(fs1.k), fs0, a);
      ControlStart(AnyCtx(fs1.k), fs0, fs1, d, a, truth);
      var (fs3, d2) := Compile(fs2, b);
      if !fs3.err && |fs3.code| <= 131071 {
        CompileSettled(fs2, b);
        WFInside(fs3, d2);
        JoinsNear(fs3, d1, d2, truth);
      }
    }
  }

  /** ... and of arithmetic and comparisons after the first operand. */
  lemma FirstLimit(fs0: FS, a: Expr)
    requires Start(fs0) && Scoped(a, fs0.nactvar) && !Compile(fs0, a).0.err && |Compile(fs0, a).0.code| <= 131000
    ensures var (fs1, d) := Compile(fs0, a);
            var (fs2, d1, o1) := Exp2RK(fs1, d);
            && (fs2.err <==> fs0.freereg + Own(a, fs0.k) >= 250)
            && |fs2.code| <= |fs1.code| + 4
            && (!fs2.err ==>
                  && Start(fs2) && fs2.nactvar == fs0.nactvar && fs2.k == FirstConsts(a, fs0.k)
                  && fs2.freereg == fs0.freereg + Own(a, fs0.k) && IsOperand(d1, o1))
  {
    hide Compile, Start, Tidy, Formed, WF, Exp2RK, FirstConsts, Own;
    var (fs1, d) := Compile(fs0, a);
    CompileSettled(fs0, a);
    OperandNear(fs1, d, a, fs0.k, fs0.freereg);
    var (fs2, d1, o1) := Exp2RK(fs1, d);
    if !fs2.err {
      CompileCorrect(AnyCtx(fs2.k), fs0, a) by { assert fs1.k <= fs2.k; }
      OperandStart(AnyCtx(fs2.k), fs0, fs1, d, a);
    }
  }

  /** The second operand and the instruction that uses both. */
  lemma SecondLimit(fs2: FS, b: Expr, d1: Desc, o1: nat)
    requires Start(fs2) && Scoped(b, fs2.nactvar) && !Compile(fs2, b).0.err && |Compile(fs2, b).0.code| <= 131000
    requires IsOperand(d1, o1)
    ensures var (fs3, d2) := Compile(fs2, b);
            && (forall op: nat :: var r := CodeArith(fs3, op, d1, d2).0;
                  && (r.err <==> fs2.freereg + Own(b, fs2.k) >= 250)
                  && |r.code| <= |fs3.code| + 5)
            && (forall kind, cond :: var r := CodeComp(fs3, kind, cond, d1, d2).0;
                  && (r.err <==> fs2.freereg + Own(b, fs2.k) >= 250)
                  && |r.code| <= |fs3.code| + 6)
  {
    hide Compile, Start, Tidy, Formed, WF, Exp2RK, FirstConsts, Own, Code, CondJump, Under, IsOperand, Free2;
    var (fs3, d2) := Compile(fs2, b);
    CompileSettled(fs2, b);
    OperandNear(fs3, d2, b, fs2.k, fs2.freereg);
    var (fs4, e2, o2) := Exp2RK(fs3, d2);
    if !fs4.err {
      OperandPending(fs2, b);
      PendingUnder(fs4.code, fs4.jpc);
    }
    forall op: nat
      ensures var r := CodeArith(fs3, op, d1, d2).0;
              (r.err <==> fs2.freereg + Own(b, fs2.k) >= 250) && |r.code| <= |fs3.code| + 5
    {
      ArithIs(fs3, op, d1, o1, d2);
      FreedOnly(fs4, d1, o1, e2, o2);
      CodeLength(Freed(fs4, d1, o1, e2, o2), Arith(op, 0, o1, o2));
      if !fs4.err { CodeNear(Freed(fs4, d1, o1, e2, o2), Arith(op, 0, o1, o2)); }
    }
    forall kind, cond
      ensures var r := CodeComp(fs3, kind, cond, d1, d2).0;
              (r.err <==> fs2.freereg + Own(b, fs2.k) >= 250) && |r.code| <= |fs3.code| + 6
    {
      OperandAgain(fs3, d1, o1);
      Frees(fs4, e2, d1);
      var i := if !cond && kind != EQ then Cmp(kind, true, o2, o1) else Cmp(kind, cond, o1, o2);
      CodeLength(Free2(fs4, e2, d1), i);
      if !fs4.err { CondNear(Free2(fs4, e2, d1), i); }
    }
  }

  lemma CodeLength(fs: FS, i: Instr)
    ensures |Code(fs, i).code| == |fs.code| + 1 && |CondJump(fs, i).0.code| == |fs.code| + 2
    ensures fs.err ==> Code(fs, i).err && CondJump(fs, i).0.err
  {
    hide PatchList, TooFar;
  }

  /** The error comes if and only if the registers do not suffice; without it the code is no longer than Length says. */
  ghost predicate Limited(fs0: FS, e: Expr) {
    && (Compile(fs0, e).0.err <==> fs0.freereg + Needs(e, fs0.k) >= 250)
    && (!Compile(fs0, e).0.err ==> |Compile(fs0, e).0.code| <= |fs0.code| + Length(e))
  }

  lemma LimitedIs(fs0: FS, e: Expr)
    requires Compile(fs0, e).0.err <==> fs0.freereg + Needs(e, fs0.k) >= 250
    requires !Compile(fs0, e).0.err ==> |Compile(fs0, e).0.code| <= |fs0.code| + Length(e)
    ensures Limited(fs0, e)
  {
  }

  /** For every expression: the generator raises an error if and only if the registers do not suffice. */
  lemma {:induction false} CompileLimit(fs0: FS, e: Expr)
    requires Start(fs0) && Scoped(e, fs0.nactvar) && |fs0.code| + Length(e) <= 131000
    ensures Compile(fs0, e).0.err <==> fs0.freereg + Needs(e, fs0.k) >= 250
    ensures !Compile(fs0, e).0.err ==> |Compile(fs0, e).0.code| <= |fs0.code| + Length(e)
    decreases e, 1
  {
    assert fs0.freereg < 250 && !fs0.err by { StartReg(fs0); StartErr(fs0); }
    hide Start;
    match e
    case Negate(a) => NegateLimit(fs0, a);
    case And(a, b) => ControlLimit(fs0, a, b, true);
    case Or(a, b) => ControlLimit(fs0, a, b, false);
    case Binary(op, a, b) => UseLimit(fs0, a, b, ByArith(op));
    case Relation(rel, a, b) => UseLimit(fs0, a, b, ByRel(rel));
    case _ =>
  }

  lemma {:induction false} NegateLimit(fs0: FS, a: Expr)
    requires Start(fs0) && Scoped(a, fs0.nactvar) && |fs0.code| + Length(Negate(a)) <= 131000
    ensures var fs := Compile(fs0, Negate(a)).0;
            && (fs.err <==> fs0.freereg + Needs(Negate(a), fs0.k) >= 250)
            && (!fs.err ==> |fs.code| <= |fs0.code| + Length(Negate(a)))
    decreases Negate(a), 0
  {
    hide CodeNot, Start, FormOf;
    CompileLimit(fs0, a);
    var (fs1, d) := Compile(fs0, a);
    if !fs1.err {
      CompileSettled(fs0, a);
      FormedIs(fs1, d, a, fs0.k);
      NotNear(fs1, d, FormOf(a), fs0.freereg);
    }
  }

  lemma CompileBoth(fs0: FS, a: Expr, b: Expr, truth: bool)
    ensures var (fs1, d) := Compile(fs0, a);
            var (fs2, d1) := GoIf(fs1, d, truth);
            var (fs3, d2) := Compile(fs2, b);
            Compile(fs0, Both(truth, a, b)) == Join(truth, fs3, d1, d2)
  {
    hide GoIfTrue, GoIfFalse, JoinFalse, JoinTrue;
    if truth { assert Both(truth, a, b) == And(a, b); } else { assert Both(truth, a, b) == Or(a, b); }
  }

  lemma NeedsBoth(a: Expr, b: Expr, k: seq<Value>, truth: bool)
    ensures Needs(Both(truth, a, b), k) ==
            Max(Max(Needs(a, k), if Loads(FormOf(a), !truth) then 1 else 0), Needs(b, Consts(a, k)))
    ensures Length(Both(truth, a, b)) == Length(a) + Length(b) + 3
  {
    hide Loads, FormOf, Consts;
    if truth { assert Both(truth, a, b) == And(a, b); } else { assert Both(truth, a, b) == Or(a, b); }
  }

  lemma {:induction false} ControlLimit(fs0: FS, a: Expr, b: Expr, truth: bool)
    requires Start(fs0) && Scoped(a, fs0.nactvar) && Scoped(b, fs0.nactvar)
    requires |fs0.code| + Length(a) + Length(b) + 3 <= 131000
    ensures var e := Both(truth, a, b);
            var fs := Compile(fs0, e).0;
            && (fs.err <==> fs0.freereg + Needs(e, fs0.k) >= 250)
            && (!fs.err ==> |fs.code| <= |fs0.code| + Length(e))
    decreases Both(truth, a, b), 0
  {
    assert a < Both(truth, a, b) && b < Both(truth, a, b);
    hide GoIf, Join, Start, Consts, Loads, FormOf, Both, Compile, Needs, Length;
    CompileBoth(fs0, a, b, truth);
    NeedsBoth(a, b, fs0.k, truth);
    CompileLimit(fs0, a);
    var (fs1, d) := Compile(fs0, a);
    if fs1.err {
      BothErr(fs0, a, b, truth);
    } else {
      BothLimit(fs0, a, b, truth);
      var (fs2, d1) := GoIf(fs1, d, truth);
      if !fs2.err { CompileLimit(fs2, b); }
      BothErr(fs0, a, b, truth);
    }
  }

  lemma BothErr(fs0: FS, a: Expr, b: Expr, truth: bool)
    ensures var (fs1, d) := Compile(fs0, a);
            var (fs2, d1) := GoIf(fs1, d, truth);
            var (fs3, d2) := Compile(fs2, b);
            (fs1.err ==> fs2.err) && (fs2.err ==> fs3.err) && (fs3.err ==> Join(truth, fs3, d1, d2).0.err)
  {
    hide Compile;
  }

  function Used(how: How, fs: FS, d1: Desc, d2: Desc): (FS, Desc) {
    match how
    case ByArith(op) => CodeArith(fs, op, d1, d2)
    case ByRel(rel) => CodeComp(fs, Comparison(rel).0, Comparison(rel).1, d1, d2)
  }

  lemma CompileUse(fs0: FS, a: Expr, b: Expr, how: How)
    ensures var fs1, d := Compile(fs0, a).0, Compile(fs0, a).1;
            var fs2, d1 := Exp2RK(fs1, d).0, Exp2RK(fs1, d).1;
            Compile(fs0, ExprOf(how, a, b)) == Used(how, Compile(fs2, b).0, d1, Compile(fs2, b).1)
  {
    hide Exp2RK, CodeArith, CodeComp, Comparison, Grows;
    match how
    case ByArith(op) => assert ExprOf(how, a, b) == Binary(op, a, b);
    case ByRel(rel) => assert ExprOf(how, a, b) == Relation(rel, a, b);
  }

  lemma UseErr(fs0: FS, a: Expr, b: Expr, how: How)
    ensures var fs1, d := Compile(fs0, a).0, Compile(fs0, a).1;
            var fs2, d1 := Exp2RK(fs1, d).0, Exp2RK(fs1, d).1;
            var fs3, d2 := Compile(fs2, b).0, Compile(fs2, b).1;
            (fs1.err ==> fs2.err) && (fs2.err ==> fs3.err) && (fs3.err ==> Used(how, fs3, d1, d2).0.err)
  {
    hide Exp2RK, CodeArith, CodeComp, Comparison, Compile;
  }

  lemma NeedsUse(a: Expr, b: Expr, k: seq<Value>, how: How)
    ensures var k2 := FirstConsts(a, k);
            Needs(ExprOf(how, a, b), k) == Max(Needs(a, k), Own(a, k) + Max(Needs(b, k2), Own(b, k2)))
    ensures Length(ExprOf(how, a, b)) == Length(a) + Length(b) + if how.ByArith? then 9 else 10
  {
    hide Own, FirstConsts, Consts, FormOf, Loads, Max;
    match how
    case ByArith(op) => assert ExprOf(how, a, b) == Binary(op, a, b);
    case ByRel(rel) => assert ExprOf(how, a, b) == Relation(rel, a, b);
  }

  lemma SecondUsed(fs2: FS, b: Expr, d1: Desc, o1: nat, how: How)
    requires Start(fs2) && Scoped(b, fs2.nactvar) && !Compile(fs2, b).0.err && |Compile(fs2, b).0.code| <= 131000
    requires IsOperand(d1, o1)
    ensures var (fs3, d2) := Compile(fs2, b);
            var r := Used(how, fs3, d1, d2).0;
            && (r.err <==> fs2.freereg + Own(b, fs2.k) >= 250)
            && |r.code| <= |fs3.code| + if how.ByArith? then 5 else 6
  {
    hide CodeArith, CodeComp, Compile, Start, IsOperand, Own, Comparison;
    SecondLimit(fs2, b, d1, o1);
  }

  /** The whole expression, when both operands have been compiled. */
  lemma UsedLimit(fs0: FS, a: Expr, b: Expr, how: How, fs1: FS, d: Desc, fs2: FS, d1: Desc, o1: nat, fs3: FS)
    requires Start(fs0) && Scoped(a, fs0.nactvar) && Scoped(b, fs0.nactvar)
    requires |fs0.code| + Length(ExprOf(how, a, b)) <= 131000
    requires fs1 == Compile(fs0, a).0 && d == Compile(fs0, a).1 && (fs2, d1, o1) == Exp2RK(fs1, d)
    requires fs3 == Compile(fs2, b).0
    requires Limited(fs0, a) && !fs1.err && !fs2.err && Limited(fs2, b) && !fs3.err
    ensures Limited(fs0, ExprOf(how, a, b))
  {
    hide Exp2RK, Used, Start, FirstConsts, Own, ExprOf, Compile, Needs, Length, IsOperand, Grows;
    NeedsUse(a, b, fs0.k, how);
    CompileUse(fs0, a, b, how);
    FirstLimit(fs0, a);
    SecondUsed(fs2, b, d1, o1, how);
  }

  /** ... and when one of them has not. */
  lemma FailedLimit(fs0: FS, a: Expr, b: Expr, how: How, fs1: FS, d: Desc, fs2: FS, fs3: FS)
    requires Start(fs0) && Scoped(a, fs0.nactvar) && |fs0.code| + Length(ExprOf(how, a, b)) <= 131000
    requires fs1 == Compile(fs0, a).0 && d == Compile(fs0, a).1 && fs2 == Exp2RK(fs1, d).0 && fs3 == Compile(fs2, b).0
    requires Limited(fs0, a) && (!fs1.err && !fs2.err ==> Limited(fs2, b) && fs3.err)
    ensures Limited(fs0, ExprOf(how, a, b))
  {
    hide Exp2RK, Used, Start, FirstConsts, Own, ExprOf, Compile, Needs, Length, IsOperand, Grows;
    NeedsUse(a, b, fs0.k, how);
    CompileUse(fs0, a, b, how);
    UseErr(fs0, a, b, how);
    if !fs1.err { FirstLimit(fs0, a); }
  }

  lemma {:induction false} UseLimit(fs0: FS, a: Expr, b: Expr, how: How)
    requires Start(fs0) && Scoped(a, fs0.nactvar) && Scoped(b, fs0.nactvar)
    requires |fs0.code| + Length(ExprOf(how, a, b)) <= 131000
    ensures Limited(fs0, ExprOf(how, a, b))
    decreases ExprOf(how, a, b), 0
  {
    assert a < ExprOf(how, a, b) && b < ExprOf(how, a, b);
    hide *;
    NeedsUse(a, b, fs0.k, how);
    var fs1, d := Compile(fs0, a).0, Compile(fs0, a).1;
    var (fs2, d1, o1) := Exp2RK(fs1, d);
    var fs3 := Compile(fs2, b).0;
    CompileLimit(fs0, a);
    LimitedIs(fs0, a);
    if !fs1.err && !fs2.err {
      FirstLimit(fs0, a);
      CompileLimit(fs2, b);
      LimitedIs(fs2, b);
    }
    if !fs1.err && !fs2.err && !fs3.err {
      UsedLimit(fs0, a, b, how, fs1, d, fs2, d1, o1, fs3);
    } else {
      FailedLimit(fs0, a, b, how, fs1, d, fs2, fs3);
    }
  }

  lemma StartErr(fs: FS)
    requires Start(fs)
    ensures !fs.err
  {
    hide Pending;
  }

  /** The generator refuses an expression exactly when the registers in use and those it needs, its value's own
      included, would be 250 or more. */
  lemma GenerateLimit(fs0: FS, e: Expr)
    requires Start(fs0) && Scoped(e, fs0.nactvar) && |fs0.code| + Length(e) <= 131000
    ensures Generate(fs0, e).err <==> fs0.freereg + Max(1, Needs(e, fs0.k)) >= 250
  {
    CompileLimit(fs0, e);
    var (fs, d) := Compile(fs0, e);
    var fs1 := Exp2NextReg(fs, d).0;
    if !fs.err {
      CompileSettled(fs0, e);
      hide Compile, Exp2NextReg, Start, Tidy, Formed, WF, Code, Needs;
      WFInside(fs, d);
      NextRegNear(fs, d, fs0.freereg);
      if !fs1.err {
        NextPending(fs0, e);
        PendingUnder(fs1.code, fs1.jpc);
        CodeNear(fs1, Return);
      }
      CodeLength(fs1, Return);
    } else {
      hide Compile, Exp2Reg, Code;
      NextErr(fs, d);
      CodeLength(fs1, Return);
    }
  }

  /** So whatever fits is compiled, and its code runs as coded. */
  lemma FittingRuns(x: Ctx, fs0: FS, e: Expr, r: Regs) returns (r2: Regs)
    requires Start(fs0) && Scoped(e, fs0.nactvar) && Generate(fs0, e).k <= x.k
    requires |fs0.code| + Length(e) <= 131000 && fs0.freereg + Max(1, Needs(e, fs0.k)) < 250
    ensures var code := Generate(fs0, e).code;
            && code != [] && Reaches(x, code, Machine(|fs0.code|, r), |code| - 1, r2)
            && Reg(r2, fs0.freereg) == Outcome(x, fs0, e, r, Nothing) && Same(r, r2, fs0.freereg)
  {
    hide Start, Generate, Reaches, Outcome, Needs, Same;
    GenerateLimit(fs0, e);
    r2 := GeneratedRuns(x, fs0, e, r);
  }

  // ----- constants

  predicate Distinct(k: seq<Value>) { forall i, j :: 0 <= i < j < |k| ==> k[i] != k[j] }

  lemma {:induction false} IndexFirst(k: seq<Value>, v: Value)
    ensures IndexOf(k, v) == |k| ==> v !in k
    ensures IndexOf(k, v) < |k| ==> k[IndexOf(k, v)] == v
  {
    if k != [] && k[0] != v {
      IndexFirst(k[1..], v);
      assert k == [k[0]] + k[1..];
    }
  }

  lemma AddedDistinct(k: seq<Value>, v: Value)
    requires Distinct(k)
    ensures Distinct(WithConst(k, v))
  {
    IndexFirst(k, v);
  }

  /** No constant is entered twice. */
  lemma {:induction false} ConstsDistinct(e: Expr, k: seq<Value>)
    requires Distinct(k)
    ensures Distinct(Consts(e, k)) && Distinct(FirstConsts(e, k))
    decreases e
  {
    hide WithConst, Bare, Distinct;
    match e {
      case Const(n) => AddedDistinct(k, Other(n));
      case Negate(a) => ConstsDistinct(a, k);
      case And(a, b) =>
        ConstsDistinct(a, k);
        ConstsDistinct(b, Consts(a, k));
      case Or(a, b) =>
        ConstsDistinct(a, k);
        ConstsDistinct(b, Consts(a, k));
      case Binary(_, a, b) =>
        ConstsDistinct(a, k);
        ConstsDistinct(b, FirstConsts(a, k));
      case Relation(_, a, b) =>
        ConstsDistinct(a, k);
        ConstsDistinct(b, FirstConsts(a, k));
      case _ =>
    }
    AddedDistinct(Consts(e, k), Bool(FormOf(e).AsTrue?));
  }
}
