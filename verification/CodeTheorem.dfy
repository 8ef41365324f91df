/** The generated code does what its expression means as coded, for every expression. */
module CodeTheorem {
  import opened LuaCode
  import opened CodeExec
  import opened CodeLists
  import opened CodeMeaning
  import opened CodeState
  import opened CodeEvolve
  import opened CodeLoad
  import opened CodeClose
  import opened CodeExp2
  import opened CodeCond
  import opened CodeGoIf
  import opened CodeNegate
  import opened CodeBoth
  import opened CodeOperand

  /** A generator state between two expressions. */
  ghost predicate Start(fs: FS) {
    && !fs.err
    && fs.nactvar <= fs.freereg < MAXSTACK
    && Ends(fs.code, |fs.code|)
    && Pending(fs.code, fs.jpc) && Below(fs.jpc, |fs.code|)
  }

  ghost predicate Compiled(x: Ctx, fs0: FS, fs: FS, d: Desc, e: Expr) {
    && Correct(x, fs0, fs, d, Coding(e, fs0.k))
    && Tidy(fs0.freereg, fs, d)
    && Solid(x, d)
    && !d.k.VCond?
    && Formed(fs, d, e, fs0.k)
  }

  // ----- operands without code

  predicate Leaf(e: Expr) { e.Local? || e.Const? || e.True? || e.False? }

  lemma LeafCorrect(x: Ctx, fs0: FS, fs: FS, d: Desc, e: Expr)
    requires Start(fs0) && fs == fs0.(k := fs.k) && fs0.k <= fs.k && d.t == [] && d.f == []
    requires KindOK(fs, d) && End(fs, d) == |fs.code| && Leaf(e)
    requires forall r: Regs :: FallGood(x, fs, d, Eval(x.ops, e, r), r)
    ensures Correct(x, fs0, fs, d, Coding(e, fs0.k))
  {
    hide Pending, FallGood, KindOK, Coded;
    assert All(fs, d) == fs0.jpc;
    PendingJumps(fs0.code, fs0.jpc);
    EvolvesSelf(fs0.code, fs.code, |fs.code|);
    EvolvesMore(fs0.code, {}, fs.code, {}, |fs.code|, fs0.jpc);
    assert {} + Set(fs0.jpc) == Pend(fs, d);
    forall r: Regs ensures Runs(x, fs0, fs, d, Coding(e, fs0.k), r) {
      LeafRuns(x, fs0, fs, d, e, r);
    }
  }

  lemma LeafWay(ops: Ops, e: Expr, k: seq<Value>, r: Regs, h: Held)
    requires Leaf(e)
    ensures Coded(ops, e, k, r, h) == Falls(Eval(ops, e, r), h)
  {
  }

  lemma LeafRuns(x: Ctx, fs0: FS, fs: FS, d: Desc, e: Expr, r: Regs)
    requires fs == fs0.(k := fs.k) && d.t == [] && d.f == [] && End(fs, d) == |fs.code| && Leaf(e)
    requires FallGood(x, fs, d, Eval(x.ops, e, r), r)
    ensures Runs(x, fs0, fs, d, Coding(e, fs0.k), r)
  {
    hide FallGood, Coded, Eval;
    assert All(fs, d) == fs0.jpc;
    LeafWay(x.ops, e, fs0.k, r, Nothing);
    forall a | a in fs0.jpc
      ensures Good(x, fs, d, Means(x.ops, Coding(e, fs0.k), r, HeldBy(fs0.code, a, r)), fs0.freereg, r,
                   Leave(x, fs.code, Pend(fs, d), a, r, End(fs, d)))
    {
      LeafWay(x.ops, e, fs0.k, r, HeldBy(fs0.code, a, r));
    }
  }

  lemma ConstCompiled(x: Ctx, fs0: FS, n: int)
    requires Start(fs0) && AddK(fs0, Other(n)).0.k <= x.k
    ensures Compiled(x, fs0, AddK(fs0, Other(n)).0, Desc(VK(AddK(fs0, Other(n)).1), [], []), Const(n))
  {
    hide Pending, Correct, AddK;
    var (fs, i) := AddK(fs0, Other(n));
    assert Kst(x, i) == Other(n);
    LeafCorrect(x, fs0, fs, Desc(VK(i), [], []), Const(n));
    AddedIndex(fs0, Other(n));
  }

  lemma {:induction false} IndexLast(k: seq<Value>, v: Value)
    ensures IndexOf(WithConst(k, v), v) == IndexOf(k, v)
  {
    if k != [] && k[0] != v {
      IndexLast(k[1..], v);
      assert WithConst(k, v)[1..] == WithConst(k[1..], v);
    }
  }

  lemma AddedIndex(fs: FS, v: Value)
    ensures AddK(fs, v).0.k == WithConst(fs.k, v) && AddK(fs, v).1 == IndexOf(AddK(fs, v).0.k, v)
  {
    IndexLast(fs.k, v);
  }

  lemma LocalCompiled(x: Ctx, fs0: FS, r: nat)
    requires Start(fs0) && r < fs0.nactvar
    ensures Compiled(x, fs0, fs0, Desc(VLocal(r), [], []), Local(r))
  {
    hide Pending, Correct;
    LeafCorrect(x, fs0, fs0, Desc(VLocal(r), [], []), Local(r));
  }

  lemma LiteralCompiled(x: Ctx, fs0: FS, b: bool)
    requires Start(fs0)
    ensures Compiled(x, fs0, fs0, Desc(if b then VTrue else VFalse, [], []), if b then True else False)
  {
    hide Pending, Correct;
    LeafCorrect(x, fs0, fs0, Desc(if b then VTrue else VFalse, [], []), if b then True else False);
  }

  // ----- negation

  lemma NotConsts(fs: FS, d: Desc)
    ensures CodeNot(fs, d).0.k == fs.k
    ensures CodeNot(fs, d).1.t == d.f && CodeNot(fs, d).1.f == d.t
  {
    hide RemoveValues, Code, InvertJump;
    var d1 := DischargeVars(d);
    AnyConsts(fs, d1);
    var (fs1, d2) := Discharge2AnyReg(fs, d1);
    assert forall i :: Code(FreeExp(fs1, d2), i).k == fs1.k by { CodeConsts(FreeExp(fs1, d2)); }
  }

  lemma CodeConsts(fs: FS)
    ensures forall i :: Code(fs, i).k == fs.k
  {
  }

  lemma AnyConsts(fs: FS, d: Desc)
    ensures Discharge2AnyReg(fs, d).0.k == fs.k
  {
    DischargeConsts(Reserve(fs, 1), d, fs.freereg);
  }

  lemma NegateCompiled(x: Ctx, fs0: FS, fs: FS, d: Desc, a: Expr)
    requires Compiled(x, fs0, fs, d, a) && !CodeNot(fs, d).0.err
    ensures Compiled(x, fs0, CodeNot(fs, d).0, CodeNot(fs, d).1, Negate(a))
  {
    hide Correct, CodeNot, Tidy, Coded;
    var (fs2, d2) := CodeNot(fs, d);
    CodeNotCorrect(x, fs0, fs, d, Coding(a, fs0.k), FormOf(a));
    forall r: Regs, h
      ensures Means(x.ops, Coding(Negate(a), fs0.k), r, h) ==
        Means(x.ops, Negation(Coding(a, fs0.k), !Literal(FormOf(a))), r, h)
    {
      NegateMeans(x.ops, a, fs0.k, r, h);
    }
    Equal(x, fs0, fs2, d2, Negation(Coding(a, fs0.k), !Literal(FormOf(a))), Coding(Negate(a), fs0.k));
    NotConsts(fs, d);
  }

  lemma NegateMeans(ops: Ops, a: Expr, k: seq<Value>, r: Regs, h: Held)
    ensures Means(ops, Coding(Negate(a), k), r, h) == Means(ops, Negation(Coding(a, k), !Literal(FormOf(a))), r, h)
  {
    hide Means;
    MeansNegation(ops, Coding(a, k), !Literal(FormOf(a)), r, h);
    MeansCoding(ops, a, k, r, h);
    MeansCoding(ops, Negate(a), k, r, h);
  }

  // ----- and, or

  lemma Restart(x: Ctx, fs0: FS, fs: FS, d: Desc, s: Sem)
    requires Correct(x, fs0, fs, d, s) && End(fs, d) == |fs.code|
    requires fs.nactvar <= fs.freereg < MAXSTACK
    ensures Start(fs) && fs.nactvar == fs0.nactvar
  {
    hide Runs, Evolves, Pending;
    Split(fs, d);
  }

  function Both(truth: bool, a: Expr, b: Expr): Expr { if truth then And(a, b) else Or(a, b) }

  function Join(truth: bool, fs: FS, d1: Desc, d2: Desc): (FS, Desc) {
    if truth then JoinFalse(fs, d1, d2) else JoinTrue(fs, d1, d2)
  }

  lemma OnCondList(fs: FS, d: Desc, cond: bool)
    ensures JumpOnCond(fs, d, cond).1 != []
  {
    hide Code, Discharge2AnyReg, Concat;
  }

  lemma OnCondConsts(fs: FS, d: Desc, cond: bool)
    ensures JumpOnCond(fs, d, cond).0.k == fs.k
  {
    hide Code, Discharge2AnyReg, Concat;
    AnyConsts(fs, d);
    CodeConsts(fs.(code := if |fs.code| > 0 then fs.code[..|fs.code| - 1] else fs.code));
    CodeConsts(FreeExp(Discharge2AnyReg(fs, d).0, Discharge2AnyReg(fs, d).1));
  }

  lemma ExitList(fs: FS, d: Desc, f: Form, cond: bool)
    requires FormIs(fs, d, f) && !d.k.VLocal?
    ensures CondJumpOf(fs, d, cond).1 != [] <==> !Never(f, cond)
    ensures CondJumpOf(fs, d, cond).0.k == fs.k
  {
    hide JumpOnCond, InvertJump;
    OnCondList(fs, d, cond);
    OnCondConsts(fs, d, cond);
    ChainConsts(fs, [], []);
  }

  /** Which exits there are after luaK_goiftrue and luaK_goiffalse. */
  lemma GoIfLists(fs: FS, d: Desc, f: Form, truth: bool)
    requires FormIs(fs, d, f) && (d.k.VLocal? ==> d.k.r < fs.nactvar)
    ensures var d1 := GoIf(fs, d, truth).1;
            Own(d1, truth) != [] <==> Own(d, truth) != [] || !Never(f, !truth)
    ensures GoIf(fs, d, truth).0.k == fs.k
  {
    hide TrueJump, FalseJump, Concat, Never;
    ExitList(fs, DischargeVars(d), f, !truth);
  }

  lemma BothFormed(fs1: FS, d: Desc, a: Expr, fs2: FS, d1: Desc, fs3: FS, d2: Desc, b: Expr, k: seq<Value>, truth: bool,
                   fs4: FS)
    requires Formed(fs1, d, a, k) && (fs2, d1) == GoIf(fs1, d, truth) && Formed(fs3, d2, b, fs2.k)
    requires d.k.VLocal? ==> d.k.r < fs1.nactvar
    requires (if truth then d1.t else d1.f) == []
    requires fs4.k == fs3.k && fs4.nactvar == fs3.nactvar
    requires FormIs(fs4, DischargeVars(d2), FormOf(b))
    ensures Formed(fs4, DischargeVars(BothDesc(d1, d2, truth)), Both(truth, a, b), k)
  {
    hide Consts, GoIfTrue, GoIfFalse, FormIs, Never;
    GoIfLists(fs1, d, FormOf(a), truth) by { FormedIs(fs1, d, a, k); }
    assert DischargeVars(BothDesc(d1, d2, truth)).k == DischargeVars(d2).k;
    BothConsts(a, b, k, truth);
    SameForm(fs4, DischargeVars(d2), DischargeVars(BothDesc(d1, d2, truth)), FormOf(b));
  }

  lemma SameForm(fs: FS, d: Desc, d2: Desc, f: Form)
    requires FormIs(fs, d, f) && d2.k == d.k
    ensures FormIs(fs, d2, f)
  {
  }

  lemma FormedIs(fs: FS, d: Desc, e: Expr, k: seq<Value>)
    requires Formed(fs, d, e, k)
    ensures FormIs(fs, d, FormOf(e))
  {
  }

  lemma BothConsts(a: Expr, b: Expr, k: seq<Value>, truth: bool)
    ensures Consts(Both(truth, a, b), k) == Consts(b, Consts(a, k)) && FormOf(Both(truth, a, b)) == FormOf(b)
  {
    hide FirstConsts, WithConst, NotForm;
    if truth {
      assert Both(truth, a, b) == And(a, b);
    } else {
      assert Both(truth, a, b) == Or(a, b);
    }
  }

  lemma BothMeans(ops: Ops, a: Expr, b: Expr, k: seq<Value>, truth: bool, r: Regs, h: Held)
    ensures Means(ops, Coding(Both(truth, a, b), k), r, h)
            == Means(ops, Following(Going(Coding(a, k), FormOf(a), truth), b, Consts(a, k)), r, h)
  {
    hide Means, GoOn;
    MeansFollowing(ops, Going(Coding(a, k), FormOf(a), truth), b, Consts(a, k), r, h);
    MeansGoing(ops, Coding(a, k), FormOf(a), truth, r, h);
    MeansCoding(ops, a, k, r, h);
    MeansCoding(ops, Both(truth, a, b), k, r, h);
  }

  /** JoinFalse or JoinTrue after both operands. */
  lemma JoinCorrect(x: Ctx, fs0: FS, fs1: FS, d1: Desc, s: Sem, fs2: FS, d2: Desc, b: Expr, k: seq<Value>, truth: bool)
    requires InTurn(x, fs0, fs1, d1, s, fs2, d2, b, k, truth)
    requires Tidy(fs1.freereg, fs2, d2) && Solid(x, d2) && !d2.k.VCond? && FormIs(fs2, d2, FormOf(b))
    requires !Join(truth, fs2, d1, d2).0.err
    ensures var (fs3, d3) := Join(truth, fs2, d1, d2);
            && Correct(x, fs0, fs3, d3, Following(s, b, k)) && Tidy(fs0.freereg, fs3, d3) && Solid(x, d3) &&
               !d3.k.VCond?
            && FormIs(fs3, DischargeVars(d2), FormOf(b)) && fs3.k == fs2.k && fs3.nactvar == fs2.nactvar
            && d3 == DischargeVars(BothDesc(d1, d2, truth))
  {
    hide Correct, Chain;
    BothStep(x, fs0, fs1, d1, s, fs2, d2, b, k, truth);
    var dj, s2 := BothDesc(d1, d2, truth), Following(s, b, k);
    assert Tidy(fs0.freereg, fs2, dj);
    var p := if truth then d2.f else d2.t;
    var fs3 := Chain(fs2, p, Own(d1, truth));
    assert p != [] ==> p[|p|-1] in All(fs2, dj);
    WellFormed(x, fs0, fs2, dj, s2);
    ChainMoves(fs2, dj, p, Own(d1, truth));
    ChainStep(x, fs0, fs2, dj, s2, p, Own(d1, truth));
    ChainFree(fs2, p, Own(d1, truth));
    ChainConsts(fs2, p, Own(d1, truth));
    DischargeVarsStep(x, fs0, fs3, dj, s2);
    KindEnd(fs2, dj);
    assert FormIs(fs3, dj, FormOf(b));
    SameForm(fs3, DischargeVars(dj), DischargeVars(d2), FormOf(b));
  }

  lemma KindEnd(fs: FS, d: Desc)
    requires WF(fs, d)
    ensures d.k.VReloc? ==> End(fs, d) == d.k.pc < |fs.code|
  {
  }

  lemma ChainFree(fs: FS, a: seq<nat>, b: seq<nat>)
    ensures Chain(fs, a, b).freereg == fs.freereg && Chain(fs, a, b).nactvar == fs.nactvar
  {
  }

  /** The first operand of `and` or `or`, and the state in which the second is compiled. */
  lemma ControlStart(x: Ctx, fs0: FS, fs1: FS, d: Desc, a: Expr, truth: bool)
    requires Compiled(x, fs0, fs1, d, a)
    requires !GoIf(fs1, d, truth).0.err
    ensures Start(GoIf(fs1, d, truth).0) && GoIf(fs1, d, truth).0.nactvar == fs0.nactvar
    ensures GoIf(fs1, d, truth).0.freereg == fs0.freereg && GoIf(fs1, d, truth).0.k == Consts(a, fs0.k)
  {
    hide Correct, GoIf, Consts;
    GoIfCorrect(x, fs0, fs1, d, Coding(a, fs0.k), FormOf(a), truth);
    GoIfLists(fs1, d, FormOf(a), truth);
    var (fs2, d1) := GoIf(fs1, d, truth);
    CorrectShape(x, fs0, fs2, d1, Going(Coding(a, fs0.k), FormOf(a), truth));
    CorrectShape(x, fs0, fs1, d, Coding(a, fs0.k));
    Restart(x, fs0, fs2, d1, Going(Coding(a, fs0.k), FormOf(a), truth));
  }

  lemma CorrectShape(x: Ctx, fs0: FS, fs: FS, d: Desc, s: Sem)
    requires Correct(x, fs0, fs, d, s)
    ensures fs.nactvar == fs0.nactvar && fs0.k <= fs.k
  {
    hide Runs, WF, Evolves;
  }

  lemma TidyLocal(free: nat, fs: FS, d: Desc)
    requires Tidy(free, fs, d)
    ensures d.k.VLocal? ==> d.k.r < fs.nactvar
  {
  }

  lemma BothCompiled(x: Ctx, fs0: FS, fs1: FS, d: Desc, a: Expr, fs3: FS, d2: Desc, b: Expr, truth: bool)
    requires Start(fs0) && Compiled(x, fs0, fs1, d, a) && Scoped(b, fs0.nactvar)
    requires !GoIf(fs1, d, truth).0.err
    requires Compiled(x, GoIf(fs1, d, truth).0, fs3, d2, b)
    requires !Join(truth, fs3, GoIf(fs1, d, truth).1, d2).0.err
    ensures var r := Join(truth, fs3, GoIf(fs1, d, truth).1, d2); Compiled(x, fs0, r.0, r.1, Both(truth, a, b))
  {
    hide Correct, GoIf, Join, Pending, Tidy, Both, Formed, FormIs, Consts, Means, Going;
    var (fs2, d1) := GoIf(fs1, d, truth);
    var s, k := Going(Coding(a, fs0.k), FormOf(a), truth), Consts(a, fs0.k);
    FormedIs(fs1, d, a, fs0.k);
    FormedIs(fs3, d2, b, fs2.k);
    GoIfCorrect(x, fs0, fs1, d, Coding(a, fs0.k), FormOf(a), truth);
    TidyLocal(fs0.freereg, fs1, d);
    GoIfLists(fs1, d, FormOf(a), truth);
    assert fs2.k == k by { FormConsts(fs1, d, a, fs0.k); }
    JoinCorrect(x, fs0, fs2, d1, s, fs3, d2, b, k, truth);
    var (fs4, d4) := Join(truth, fs3, d1, d2);
    BothFormed(fs1, d, a, fs2, d1, fs3, d2, b, fs0.k, truth, fs4);
    forall r: Regs, h
      ensures Means(x.ops, Coding(Both(truth, a, b), fs0.k), r, h) == Means(x.ops, Following(s, b, k), r, h)
    {
      BothMeans(x.ops, a, b, fs0.k, truth, r, h);
    }
    Equal(x, fs0, fs4, d4, Following(s, b, k), Coding(Both(truth, a, b), fs0.k));
  }

  // ----- arithmetic and comparisons

  lemma Frees(fs: FS, d1: Desc, d2: Desc)
    ensures Free2(fs, d1, d2) == fs.(freereg := Free2(fs, d1, d2).freereg)
  {
  }

  /** Freeing both operands gives back the registers in use before. */
  lemma FreesBoth(fs0: FS, fs1: FS, d1: Desc, o1: nat, fs2: FS, d2: Desc, o2: nat)
    requires Tidy(fs0.freereg, fs1, d1) && IsOperand(d1, o1) && Tidy(fs1.freereg, fs2, d2) && IsOperand(d2, o2)
    requires fs1.nactvar == fs2.nactvar
    ensures Freed(fs2, d1, o1, d2, o2).freereg == fs0.freereg
    ensures Free2(fs2, d2, d1).freereg == fs0.freereg
  {
  }

  lemma TidyReg(free: nat, fs: FS, d: Desc)
    requires Tidy(free, fs, d)
    ensures (d.k.VNonReloc? ==> d.k.r < fs.freereg) && free <= fs.freereg && fs.nactvar <= free
  {
  }

  /** The first operand is ready, and the second has been compiled after it. */
  ghost predicate First(x: Ctx, fs0: FS, fs1: FS, d1: Desc, a: Expr, o1: nat) {
    && Correct(x, fs0, fs1, d1, OperandSem(a, fs0.k)) && IsOperand(d1, o1) && Tidy(fs0.freereg, fs1, d1)
    && fs1.k == FirstConsts(a, fs0.k)
  }

  /** Both operands are ready and their registers given back. */
  lemma OperandsReady(x: Ctx, fs0: FS, fs1: FS, d1: Desc, a: Expr, o1: nat, fs2: FS, d2: Desc, b: Expr, fs4: FS)
    requires First(x, fs0, fs1, d1, a, o1)
    requires Compiled(x, fs1, fs2, d2, b) && Scoped(b, fs0.nactvar)
    requires !Exp2RK(fs2, d2).0.err && Exp2RK(fs2, d2).0.k <= x.k
    requires fs4 == Exp2RK(fs2, d2).0.(freereg := fs4.freereg)
    ensures var (_, e2, o2) := Exp2RK(fs2, d2);
            && Operands(x, fs0, fs1, d1, OperandSem(a, fs0.k), o1, fs4, e2, OperandSem(b, fs1.k), o2)
            && WF(fs4, e2) && Tidy(fs1.freereg, Exp2RK(fs2, d2).0, e2) && IsOperand(e2, o2)
    ensures fs4.nactvar == fs1.nactvar == fs0.nactvar
    ensures fs4.k == FirstConsts(b, fs1.k)
  {
    hide Correct, Exp2RK, IsOperand, Bare, Formed, Consts, FirstConsts;
    var (fs3, e2, o2) := Exp2RK(fs2, d2);
    OperandCorrect(x, fs1, fs2, d2, b, fs1.k);
    CorrectShape(x, fs1, fs3, e2, OperandSem(b, fs1.k));
    CorrectShape(x, fs0, fs1, d1, OperandSem(a, fs0.k));
    assert !fs3.err by { WellFormed(x, fs1, fs3, e2, OperandSem(b, fs1.k)); }
    Rescale(x, fs1, fs3, e2, OperandSem(b, fs1.k), fs4);
    WellFormed(x, fs1, fs4, e2, OperandSem(b, fs1.k));
    TidyReg(fs0.freereg, fs1, d1);
    OperandScoped(b, fs1.k, fs0.nactvar);
  }

  lemma OperandScoped(e: Expr, k: seq<Value>, n: nat)
    requires Scoped(e, n)
    ensures ScopedSem(OperandSem(e, k), n)
  {
    hide Bare, Consts;
    assert ScopedSem(Coding(e, k), n);
    assert ScopedSem(Emitted(Coding(e, k)), n);
  }

  function ExprOf(how: How, a: Expr, b: Expr): Expr {
    match how
    case ByArith(op) => Binary(op, a, b)
    case ByRel(rel) => Relation(rel, a, b)
  }

  lemma CombinedMeans(ops: Ops, how: How, a: Expr, b: Expr, k: seq<Value>, r: Regs, h: Held)
    ensures Means(ops, Coding(ExprOf(how, a, b), k), r, h)
            == Means(ops, Combining(OperandSem(a, k), OperandSem(b, FirstConsts(a, k)), how), r, h)
  {
    hide Means, OperandWay, OperandSem, FirstConsts, Apply;
    MeansCoding(ops, ExprOf(how, a, b), k, r, h);
    MeansOperand(ops, a, k, r, h);
    MeansOperand(ops, b, FirstConsts(a, k), r, HeldAfter(OperandWay(ops, a, k, r, h)));
    MeansBoth(ops, OperandSem(a, k), OperandSem(b, FirstConsts(a, k)), how, r, h);
  }

  lemma MeansBoth(ops: Ops, s1: Sem, s2: Sem, how: How, r: Regs, h: Held)
    ensures var v := Means(ops, s1, r, h);
            Means(ops, Combining(s1, s2, how), r, h)
            == Falls(Apply(ops, how, Delivered(v), Delivered(Means(ops, s2, r, HeldAfter(v)))), Nothing)
  {
    hide Apply;
  }

  lemma UsedCompiled(x: Ctx, fs0: FS, fs1: FS, d1: Desc, a: Expr, o1: nat, b: Expr, how: How, fs3: FS, d3: Desc)
    requires First(x, fs0, fs1, d1, a, o1)
    requires Correct(x, fs0, fs3, d3, Combining(OperandSem(a, fs0.k), OperandSem(b, fs1.k), how))
    requires fs3.freereg == fs0.freereg && fs3.nactvar == fs1.nactvar && fs3.k == FirstConsts(b, fs1.k)
    requires FormIs(fs3, d3, FormOf(ExprOf(how, a, b))) && d3.t == [] && d3.f == []
    ensures Compiled(x, fs0, fs3, d3, ExprOf(how, a, b))
  {
    hide Correct, Means, OperandSem, FirstConsts, IsOperand;
    var s := Combining(OperandSem(a, fs0.k), OperandSem(b, fs1.k), how);
    forall r: Regs, h ensures Means(x.ops, Coding(ExprOf(how, a, b), fs0.k), r, h) == Means(x.ops, s, r, h) {
      CombinedMeans(x.ops, how, a, b, fs0.k, r, h);
    }
    Equal(x, fs0, fs3, d3, s, Coding(ExprOf(how, a, b), fs0.k));
  }

  /** The registers of both operands given back, the higher first. */
  function Freed(fs: FS, d1: Desc, o1: nat, d2: Desc, o2: nat): FS {
    if o1 > o2 then Free2(fs, d1, d2) else Free2(fs, d2, d1)
  }

  lemma FreedOnly(fs: FS, d1: Desc, o1: nat, d2: Desc, o2: nat)
    ensures Freed(fs, d1, o1, d2, o2) == fs.(freereg := Freed(fs, d1, o1, d2, o2).freereg)
  {
    hide Free2;
    Frees(fs, d1, d2);
    Frees(fs, d2, d1);
  }

  lemma ArithIs(fs: FS, op: nat, d1: Desc, o1: nat, d2: Desc)
    requires IsOperand(d1, o1)
    ensures var (fs1, e2, o2) := Exp2RK(fs, d2);
            var fs2 := Freed(fs1, d1, o1, e2, o2);
            CodeArith(fs, op, d1, d2) == (Code(fs2, Arith(op, 0, o1, o2)), Desc(VReloc(|fs2.code|), [], []))
  {
    hide Exp2RK, Code, Free2;
    OperandAgain(Exp2RK(fs, d2).0, d1, o1);
  }

  lemma ArithCompiled(x: Ctx, fs0: FS, fs1: FS, d1: Desc, a: Expr, o1: nat, fs2: FS, d2: Desc, b: Expr, op: nat)
    requires First(x, fs0, fs1, d1, a, o1)
    requires Compiled(x, fs1, fs2, d2, b) && Scoped(b, fs0.nactvar)
    requires !CodeArith(fs2, op, d1, d2).0.err && CodeArith(fs2, op, d1, d2).0.k <= x.k
    ensures Compiled(x, fs0, CodeArith(fs2, op, d1, d2).0, CodeArith(fs2, op, d1, d2).1, Binary(op, a, b))
  {
    hide Correct, Exp2RK, Code, Uses, IsOperand, Freed, CodeArith, Operands, WF, Compiled, Tidy, OperandSem,
         FirstConsts, FormIs;
    var (fs3, e2, o2) := Exp2RK(fs2, d2);
    var fs4, i := Freed(fs3, d1, o1, e2, o2), Arith(op, 0, o1, o2);
    var fs5, d5 := Code(fs4, i), Desc(VReloc(|fs4.code|), [], []);
    ArithIs(fs2, op, d1, o1, d2);
    FreedOnly(fs3, d1, o1, e2, o2);
    assert !fs4.err by { CodeErr(fs4, i); }
    CodeLast(fs4, i);
    OperandsReady(x, fs0, fs1, d1, a, o1, fs2, d2, b, fs4);
    assert fs4.freereg == fs0.freereg by { FreesBoth(fs0, fs1, d1, o1, fs3, e2, o2); }
    ArithUses(x, o1, fs4, e2, o2, op);
    OperandsStep(x, fs0, fs1, d1, OperandSem(a, fs0.k), o1, fs4, e2, OperandSem(b, fs1.k), o2, fs5, d5, ByArith(op));
    UsedCompiled(x, fs0, fs1, d1, a, o1, b, ByArith(op), fs5, d5) by { ResultForm(fs4, i, d5); }
  }

  lemma ResultForm(fs: FS, i: Instr, d: Desc)
    requires i.Arith? && d.k == VReloc(|fs.code|)
    ensures FormIs(Code(fs, i), d, AsResult)
  {
    hide Code;
    CodeLast(fs, i);
  }

  lemma CodeLast(fs: FS, i: Instr)
    ensures |Code(fs, i).code| == |fs.code| + 1 && Code(fs, i).code[|fs.code|] == i
    ensures Code(fs, i).nactvar == fs.nactvar && Code(fs, i).freereg == fs.freereg && Code(fs, i).k == fs.k
  {
    hide PatchList, TooFar;
  }

  lemma CompCompiled(x: Ctx, fs0: FS, fs1: FS, d1: Desc, a: Expr, o1: nat, fs2: FS, d2: Desc, b: Expr, rel: CmpOp)
    requires First(x, fs0, fs1, d1, a, o1)
    requires Compiled(x, fs1, fs2, d2, b) && Scoped(b, fs0.nactvar)
    requires var r := CodeComp(fs2, Comparison(rel).0, Comparison(rel).1, d1, d2); !r.0.err && r.0.k <= x.k
    ensures var r := CodeComp(fs2, Comparison(rel).0, Comparison(rel).1, d1, d2);
            Compiled(x, fs0, r.0, r.1, Relation(rel, a, b))
  {
    hide Correct, Exp2RK, CondJump, Uses, IsOperand, Free2, Comparison, Operands, WF, Compiled, Tidy, OperandSem,
         FirstConsts;
    OperandAgain(fs2, d1, o1);
    var (fs3, e2, o2) := Exp2RK(fs2, d2);
    var fs4 := Free2(fs3, e2, d1);
    var i := CompInstr(Comparison(rel).0, Comparison(rel).1, o1, o2);
    Frees(fs3, e2, d1);
    CondErr(fs4, i);
    CondConsts(fs4, i);
    OperandsReady(x, fs0, fs1, d1, a, o1, fs2, d2, b, fs4);
    FreesBoth(fs0, fs1, d1, o1, fs3, e2, o2);
    CompUses(x, o1, fs4, e2, o2, rel);
    var d5 := Desc(VJmp(|fs4.code| + 1), [], []);
    OperandsStep(x, fs0, fs1, d1, OperandSem(a, fs0.k), o1, fs4, e2, OperandSem(b, fs1.k), o2, CondJump(fs4, i).0, d5,
                 ByRel(rel));
    CondFree(fs4, i);
    OperandLists(d1, o1);
    UsedCompiled(x, fs0, fs1, d1, a, o1, b, ByRel(rel), CondJump(fs4, i).0, d5);
  }

  lemma CondConsts(fs: FS, i: Instr)
    ensures CondJump(fs, i).0.k == fs.k && CondJump(fs, i).0.nactvar == fs.nactvar
  {
  }

  lemma OperandStart(x: Ctx, fs0: FS, fs1: FS, d: Desc, a: Expr)
    requires Compiled(x, fs0, fs1, d, a)
    requires !Exp2RK(fs1, d).0.err && Exp2RK(fs1, d).0.k <= x.k
    ensures Start(Exp2RK(fs1, d).0) && Exp2RK(fs1, d).0.nactvar == fs0.nactvar
    ensures var (fs2, d1, o1) := Exp2RK(fs1, d); First(x, fs0, fs2, d1, a, o1)
  {
    hide Correct, Exp2RK, OperandSem, FirstConsts, Formed;
    OperandCorrect(x, fs0, fs1, d, a, fs0.k);
    var (fs2, d1, o1) := Exp2RK(fs1, d);
    CorrectShape(x, fs0, fs2, d1, OperandSem(a, fs0.k));
    Restart(x, fs0, fs2, d1, OperandSem(a, fs0.k));
  }

  // ----- the compiler

  /** The code generated for an expression does what the expression means as coded, for every expression, every
      state of the registers and every jump control may come by, unless a limit is exceeded. */
  lemma {:induction false} CompileCorrect(x: Ctx, fs0: FS, e: Expr)
    requires Start(fs0) && Scoped(e, fs0.nactvar)
    requires var fs := Compile(fs0, e).0; !fs.err && fs.k <= x.k
    ensures Compiled(x, fs0, Compile(fs0, e).0, Compile(fs0, e).1, e)
    decreases e
  {
    hide Compiled, GoIfTrue, GoIfFalse, JoinFalse, JoinTrue, CodeNot, CodeArith, CodeComp, Exp2RK, AddK, Start, First,
         Comparison;
    match e
    case Local(r) => LocalCompiled(x, fs0, r);
    case Const(n) => ConstCompiled(x, fs0, n);
    case True => LiteralCompiled(x, fs0, true);
    case False => LiteralCompiled(x, fs0, false);
    case Negate(a) =>
      CompileCorrect(x, fs0, a);
      NegateCompiled(x, fs0, Compile(fs0, a).0, Compile(fs0, a).1, a);
    case And(a, b) =>
      var (fs1, d) := Compile(fs0, a);
      var (fs2, d1) := GoIf(fs1, d, true);
      var (fs3, d2) := Compile(fs2, b);
      CompileCorrect(x, fs0, a);
      ControlStart(x, fs0, fs1, d, a, true);
      CompileCorrect(x, fs2, b);
      BothCompiled(x, fs0, fs1, d, a, fs3, d2, b, true);
    case Or(a, b) =>
      var (fs1, d) := Compile(fs0, a);
      var (fs2, d1) := GoIf(fs1, d, false);
      var (fs3, d2) := Compile(fs2, b);
      CompileCorrect(x, fs0, a);
      ControlStart(x, fs0, fs1, d, a, false);
      CompileCorrect(x, fs2, b);
      BothCompiled(x, fs0, fs1, d, a, fs3, d2, b, false);
    case Binary(op, a, b) =>
      var (fs1, d) := Compile(fs0, a);
      var (fs2, d1, o1) := Exp2RK(fs1, d);
      var (fs3, d2) := Compile(fs2, b);
      CompileCorrect(x, fs0, a);
      OperandStart(x, fs0, fs1, d, a);
      CompileCorrect(x, fs2, b);
      ArithCompiled(x, fs0, fs2, d1, a, o1, fs3, d2, b, op);
    case Relation(rel, a, b) =>
      var (fs1, d) := Compile(fs0, a);
      var (fs2, d1, o1) := Exp2RK(fs1, d);
      var (fs3, d2) := Compile(fs2, b);
      CompileCorrect(x, fs0, a);
      OperandStart(x, fs0, fs1, d, a);
      CompileCorrect(x, fs2, b);
      CompCompiled(x, fs0, fs2, d1, a, o1, fs3, d2, b, rel);
  }
}
