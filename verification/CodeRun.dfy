/** Generated code on the virtual machine, and where the generator goes wrong. */
module CodeRun {
  import opened LuaCode
  import opened CodeExec
  import opened CodeLists
  import opened CodeMeaning
  import opened CodeState
  import opened CodeEvolve
  import opened CodeLoad
  import opened CodeClose
  import opened CodeExp2
  import opened CodeCond
  import opened CodeGoIf
  import opened CodeNegate
  import opened CodeBoth
  import opened CodeOperand
  import opened CodeTheorem

  /** A run without pending jumps is a run of the machine. */
  lemma {:induction false} ExecReaches(x: Ctx, code: seq<Instr>, pc: nat, r: Regs, end: nat, r2: Regs)
    requires Exec(x, code, {}, pc, r, end) == Fall(r2) && end <= |code|
    ensures Reaches(x, code, Machine(pc, r), end, r2)
    decreases end - pc
  {
    if pc != end {
      var i := code[pc];
      if IsTest(i) {
        if Passes(x, i, r) {
          ExecReaches(x, code, Target(code, pc + 1), Taken(x, i, r), end, r2);
        } else {
          ExecReaches(x, code, pc + 2, r, end, r2);
        }
      } else if i.Jmp? {
        ExecReaches(x, code, Target(code, pc), r, end, r2);
      } else {
        ExecReaches(x, code, pc + Size(i), Stored(x, i, r), end, r2);
      }
    }
  }

  /** The code for e with its value put in the next register, and an instruction after it. */
  function Generate(fs0: FS, e: Expr): FS {
    var (fs, d) := Compile(fs0, e);
    Code(Exp2NextReg(fs, d).0, Return)
  }

  /** What the code for e delivers when control comes to it by a jump that brings h along. */
  function Outcome(x: Ctx, fs0: FS, e: Expr, r: Regs, h: Held): Value { Delivered(Coded(x.ops, e, fs0.k, r, h)) }

  lemma GeneratedStatic(x: Ctx, fs0: FS, e: Expr) returns (s: Sem)
    requires Start(fs0) && Scoped(e, fs0.nactvar)
    requires !Generate(fs0, e).err && Generate(fs0, e).k <= x.k
    ensures var fs1, d1 := Exp2NextReg(Compile(fs0, e).0, Compile(fs0, e).1).0, Desc(VNonReloc(fs0.freereg), [], []);
            && Correct(x, fs0, fs1, d1, s)
            && fs1.freereg == fs0.freereg + 1
            && fs0.freereg < MAXSTACK
    ensures forall r, h :: Means(x.ops, s, r, h) == Falls(Outcome(x, fs0, e, r, h), HeldAfter(Means(x.ops, s, r, h)))
  {
    hide Correct, Exp2NextReg, Start, Pending, Compile, Code, Coded, Formed;
    var (fs, d) := Compile(fs0, e);
    var fs1 := Exp2NextReg(fs, d).0;
    s := InReg(Coding(e, fs0.k), FormOf(e).AsJump?);
    assert !fs1.err && fs1.k <= x.k by { CodeKeeps(fs1, Return); }
    NextErr(fs, d);
    assert !fs.err && fs.k <= x.k;
    CompileCorrect(x, fs0, e);
    FormKind(fs, d, e, fs0.k);
    NextRegCorrect(x, fs0, fs, d, Coding(e, fs0.k));
    assert fs1.freereg == fs0.freereg + 1 by {
      CorrectShape(x, fs0, fs1, Desc(VNonReloc(fs0.freereg), [], []), s);
      StartReg(fs0);
    }
    forall r, h ensures Means(x.ops, s, r, h) == Falls(Outcome(x, fs0, e, r, h), HeldAfter(Means(x.ops, s, r, h))) {
      InRegValue(x.ops, e, fs0.k, r, h);
    }
  }

  lemma InRegValue(ops: Ops, e: Expr, k: seq<Value>, r: Regs, h: Held)
    ensures var w := Means(ops, InReg(Coding(e, k), FormOf(e).AsJump?), r, h);
            w == Falls(Delivered(Coded(ops, e, k, r, h)), HeldAfter(w))
  {
    hide Coded;
    MeansInReg(ops, e, k, r, h);
    MeansClosing(ops, Emitted(Coding(e, k)), r, h);
    MeansEmitted(ops, Coding(e, k), r, h);
    MeansCoding(ops, e, k, r, h);
  }

  lemma NextErr(fs: FS, d: Desc)
    ensures var fs1 := Exp2NextReg(fs, d).0; (fs.err ==> fs1.err) && fs.k <= fs1.k
  {
    hide Exp2Reg;
  }

  lemma StartReg(fs: FS)
    requires Start(fs)
    ensures fs.nactvar <= fs.freereg < MAXSTACK
  {
    hide Pending;
  }

  lemma CodeKeeps(fs: FS, i: Instr)
    requires !Code(fs, i).err
    ensures !fs.err && Code(fs, i).k == fs.k
  {
  }

  /** Falling off the end, or jumping to it, in the finished code. */
  lemma FinishedCont(x: Ctx, fs: FS, d: Desc, w: Way, free: nat, r: Regs, o: Out)
    requires WF(fs, d) && d.k.VNonReloc? && d.t == [] && d.f == [] && Good(x, fs, d, w, free, r, o)
    ensures o.Fall? || o.Exit?
    ensures Cont(x, Code(fs, Return).code, {}, |fs.code|, o, |fs.code|) == Fall(o.r)
    ensures Same(r, o.r, free) && w.Falls? && Reg(o.r, d.k.r) == w.v
  {
    hide Code, Evolves, Pending;
    CodeStatic(fs, d, Return);
    if o.Exit? { CarriesNothing(Code(fs, Return).code, o.pc, o.r); }
  }

  /** Whatever the registers hold, running the code generated for e from its start ends after it with what e
      means as coded in the first free register, and the registers in use unchanged. */
  lemma GeneratedRuns(x: Ctx, fs0: FS, e: Expr, r: Regs) returns (r2: Regs)
    requires Start(fs0) && Scoped(e, fs0.nactvar)
    requires !Generate(fs0, e).err && Generate(fs0, e).k <= x.k
    ensures var fs := Generate(fs0, e);
            && fs.code != [] && fs.code[|fs.code| - 1] == Return
            && Reaches(x, fs.code, Machine(|fs0.code|, r), |fs.code| - 1, r2)
            && Reg(r2, fs0.freereg) == Outcome(x, fs0, e, r, Nothing)
            && Same(r, r2, fs0.freereg)
            && fs.freereg == fs0.freereg + 1
  {
    hide Exp2NextReg, Start, Pending, Compile, Code, Evolves, Good, Exec, Means, Outcome, Reaches, WF, HeldBy;
    var s := GeneratedStatic(x, fs0, e);
    var fs1, d1 := Exp2NextReg(Compile(fs0, e).0, Compile(fs0, e).1).0, Desc(VNonReloc(fs0.freereg), [], []);
    var n := |fs1.code|;
    assert Runs(x, fs0, fs1, d1, s, r);
    var o := Exec(x, fs1.code, Pend(fs1, d1), |fs0.code|, r, n);
    FinishedCont(x, fs1, d1, Means(x.ops, s, r, Nothing), fs0.freereg, r, o);
    CodeStatic(fs1, d1, Return);
    assert Set(d1.t + d1.f) == {};
    Resume(x, fs1.code, Pend(fs1, d1), Code(fs1, Return).code, {}, n, |fs0.code|, r, n);
    ExecReaches(x, Code(fs1, Return).code, |fs0.code|, r, n, o.r);
    CodeFree(fs1, Return);
    return o.r;
  }

  /** The same when control comes by a jump that was pending to the expression's start, with what it brings along. */
  lemma GeneratedRunsFromJump(x: Ctx, fs0: FS, e: Expr, a: nat, r: Regs) returns (r2: Regs)
    requires Start(fs0) && Scoped(e, fs0.nactvar) && a in fs0.jpc
    requires !Generate(fs0, e).err && Generate(fs0, e).k <= x.k
    ensures var fs := Generate(fs0, e);
            && a < |fs.code| && fs.code[a].Jmp? && |fs0.code| <= Target(fs.code, a) < |fs.code|
            && Reaches(x, fs.code, Machine(Target(fs.code, a), Carry(fs.code, a, r)), |fs.code| - 1, r2)
            && Reg(r2, fs0.freereg) == Outcome(x, fs0, e, r, HeldBy(fs0.code, a, r))
            && Same(r, r2, fs0.freereg)
  {
    hide Exp2NextReg, Start, Compile, Code, Evolves, Good, Exec, Means, Outcome, Reaches, WF, Carry, HeldBy;
    var s := GeneratedStatic(x, fs0, e);
    var fs1, d1 := Exp2NextReg(Compile(fs0, e).0, Compile(fs0, e).1).0, Desc(VNonReloc(fs0.freereg), [], []);
    var n := |fs1.code|;
    assert Runs(x, fs0, fs1, d1, s, r);
    var o := Leave(x, fs1.code, Pend(fs1, d1), a, r, n);
    FinishedCont(x, fs1, d1, Means(x.ops, s, r, HeldBy(fs0.code, a, r)), fs0.freereg, r, o);
    CodeStatic(fs1, d1, Return);
    assert Set(d1.t + d1.f) == {};
    ResumeLeave(x, fs0.code, Set(fs0.jpc), |fs0.code|, fs1.code, Pend(fs1, d1), Code(fs1, Return).code, {}, n, a, r, n);
    EvolvesTrans(fs0.code, Set(fs0.jpc), fs1.code, Pend(fs1, d1), Code(fs1, Return).code, {}, |fs0.code|, n);
    EvolvesHas(fs0.code, Set(fs0.jpc), Code(fs1, Return).code, {}, |fs0.code|, a);
    ExecReaches(x, Code(fs1, Return).code, Target(Code(fs1, Return).code, a), Carry(Code(fs1, Return).code, a, r), n,
                o.r);
    return o.r;
  }

  /** A run ends in one way. */
  lemma {:induction false} ReachesOnce(x: Ctx, code: seq<Instr>, s: Machine, stop: int, r1: Regs, r2: Regs)
    requires Reaches(x, code, s, stop, r1) && Reaches(x, code, s, stop, r2)
    ensures r1 == r2
    decreases stop - s.pc
  {
    if s.pc != stop { ReachesOnce(x, code, Step(x, code, s), stop, r1, r2); }
  }

  // ----- the literal operand

  /** `((a and b) or false) and y`, with a, b and y in registers 0, 1 and 2. */
  function Faulty(): Expr { And(Or(And(Local(0), Local(1)), False), Local(2)) }

  function Fresh(n: nat): FS { FS([], [], n, n, [], false) }

  function FirstTest(): seq<Instr> { [TestSet(NO_REG, 0, false), Jmp(-1)] }

  function BothTests(): seq<Instr> { [TestSet(NO_REG, 0, false), Jmp(-1), TestSet(NO_REG, 1, true), Jmp(-1)] }

  /** After `a and b`. */
  lemma FaultyAnd()
    ensures Compile(Fresh(3), And(Local(0), Local(1))) ==
            (Fresh(3).(code := FirstTest()), Desc(VNonReloc(1), [], [1]))
  {
    var fs0 := Fresh(3);
    var (fs1, d1) := GoIfTrue(fs0, Desc(VLocal(0), [], []));
    assert fs1 == fs0.(code := FirstTest()) && d1 == Desc(VCond(true), [], [1]);
    assert [] + [1] == [1];
    hide GoIfTrue;
    assert Compile(fs0, Local(0)) == (fs0, Desc(VLocal(0), [], []));
    assert Compile(fs1, Local(1)) == (fs1, Desc(VLocal(1), [], []));
    assert JoinFalse(fs1, d1, Desc(VLocal(1), [], [])) == (fs1, Desc(VNonReloc(1), [], [1]));
  }

  lemma FaultyGoIf()
    ensures GoIfFalse(Fresh(3).(code := FirstTest()), Desc(VNonReloc(1), [], [1])) ==
            (Fresh(3).(code := BothTests(), jpc := [1]), Desc(VCond(false), [3], []))
  {
    var fs := Fresh(3).(code := FirstTest());
    assert [3] + [] == [3] && [] + [3] == [3] && [] + [1] == [1];
    var (fs1, l) := TrueJump(fs, Desc(VNonReloc(1), [], [1]));
    assert fs1.code == BothTests();
    assert fs1 == fs.(code := BothTests()) && l == [3];
    hide TrueJump;
    assert Chain(fs1, [], l) == fs1;
  }

  /** After `(a and b) or false`: the jump controlled by the first TESTSET is pending to here. */
  lemma FaultyOr()
    ensures Compile(Fresh(3), Or(And(Local(0), Local(1)), False)) ==
            (Fresh(3).(code := BothTests(), jpc := [1]), Desc(VFalse, [3], []))
  {
    FaultyAnd();
    FaultyGoIf();
    hide GoIfFalse, BothTests, FirstTest;
    var (fs2, d2) := GoIfFalse(Fresh(3).(code := FirstTest()), Desc(VNonReloc(1), [], [1]));
    assert Compile(fs2, False) == (fs2, Desc(VFalse, [], [])) && [] + [3] == [3];
    assert JoinTrue(fs2, d2, Desc(VFalse, [], [])) == (fs2, Desc(VFalse, [3], []));
  }

  /** After all of it: that jump is now an exit of `and`. */
  lemma FaultyCompiled()
    ensures Compile(Fresh(3), Faulty()) ==
            (Fresh(3).(code := BothTests() + [Jmp(-4)], jpc := [3]),
             Desc(VNonReloc(2), [], [4, 1]))
  {
    FaultyOr();
    var fs2 := Fresh(3).(code := BothTests(), jpc := [1]);
    FaultyLiteral(fs2);
    hide GoIfTrue, BothTests;
    var (fs3, d3) := GoIfTrue(fs2, Desc(VFalse, [3], []));
    assert Compile(fs3, Local(2)) == (fs3, Desc(VLocal(2), [], [])) && [] + [4, 1] == [4, 1];
    assert JoinFalse(fs3, d3, Desc(VLocal(2), [], [])) == (fs3, Desc(VNonReloc(2), [], [4, 1]));
  }

  lemma FaultyLiteral(fs2: FS)
    requires fs2 == Fresh(3).(code := BothTests(), jpc := [1])
    ensures GoIfTrue(fs2, Desc(VFalse, [3], [])) ==
            (fs2.(code := BothTests() + [Jmp(-4)], jpc := [3]), Desc(VCond(true), [], [4, 1]))
  {
    var (fs3, l) := Jump(fs2);
    assert fs3.code == BothTests() + [Jmp(-4)] && l == [4, 1];
    assert [] + [4, 1] == [4, 1] && [] + [3] == [3];
    hide Jump;
    assert Chain(fs3, [], l) == fs3;
  }

  /** Where the generator is wrong: with a == nil the expression is false, but its code delivers nil. */
  lemma FaultyWrong(x: Ctx, r: Regs)
    requires r[0] == Nil
    ensures Start(Fresh(3)) && Scoped(Faulty(), 3) && !Generate(Fresh(3), Faulty()).err
    ensures Eval(x.ops, Faulty(), r) == Bool(false)
    ensures Reaches(x, Generate(Fresh(3), Faulty()).code, Machine(0, r), 9, Write(r, 3, Nil))
  {
    FaultyGenerated();
    hide Generate, Compile;
    var code := Generate(Fresh(3), Faulty()).code;
    assert code[0] == TestSet(3, 0, false) && code[1] == Jmp(7) && |code| == 10;
    assert Step(x, code, Machine(0, r)) == Machine(9, Write(r, 3, Nil));
    FaultyEval(x, r);
    hide Eval;
    FreshStart();
    assert Reaches(x, code, Machine(9, Write(r, 3, Nil)), 9, Write(r, 3, Nil));
  }

  lemma FreshStart()
    ensures Start(Fresh(3)) && Scoped(Faulty(), 3)
  {
    assert Scoped(And(Local(0), Local(1)), 3) && Scoped(Or(And(Local(0), Local(1)), False), 3);
  }

  lemma FaultyEval(x: Ctx, r: Regs)
    requires r[0] == Nil
    ensures Eval(x.ops, Faulty(), r) == Bool(false)
  {
    assert Eval(x.ops, And(Local(0), Local(1)), r) == Nil;
    assert Eval(x.ops, Or(And(Local(0), Local(1)), False), r) == Bool(false);
  }

  /** The value of y is loaded, and the list of jumps to it patched. */
  function Loaded(): seq<Instr> { [TestSet(NO_REG, 0, false), Jmp(-1), Test(1, true), Jmp(1), Jmp(-4), Move(3, 2)] }

  function Materialized(): seq<Instr> { Loaded() + [Jmp(-1), LoadBool(3, false, true), LoadBool(3, true, false)] }

  function Patches(): seq<Instr> {
    [TestSet(3, 0, false), Jmp(7), Test(1, true), Jmp(1), Jmp(2), Move(3, 2), Jmp(-1),
     LoadBool(3, false, true), LoadBool(3, true, false)]
  }

  lemma FaultyLoad(fs: FS)
    requires fs == Fresh(3).(code := BothTests() + [Jmp(-4)], jpc := [3])
    ensures Discharge2Reg(Reserve(fs, 1), Desc(VNonReloc(2), [], [4, 1]), 3) ==
            (fs.(code := Loaded(), jpc := [], freereg := 4), Desc(VNonReloc(3), [], [4, 1]))
  {
    var c := BothTests() + [Jmp(-4)];
    assert FixJump(PatchTestReg(c, 3, NO_REG), 3, 5) ==
      [TestSet(NO_REG, 0, false), Jmp(-1), Test(1, true), Jmp(1), Jmp(-4)];
    assert [3][1..] == [];
    assert !TooFar(c, [3], 5, 5);
    assert PatchList(c, [3], 5, NO_REG, 5) == [TestSet(NO_REG, 0, false), Jmp(-1), Test(1, true), Jmp(1), Jmp(-4)];
    var fs1 := Reserve(fs, 1);
    assert fs1 == fs.(freereg := 4);
    hide PatchList, TooFar;
    assert Code(fs1, Move(3, 2)).code == Loaded();
  }

  lemma FaultyClosed(fs: FS)
    requires fs == Fresh(3).(code := Loaded(), freereg := 4)
    ensures Materialize(fs, false, 3) == fs.(code := Materialized(), jpc := [6])
    ensures NeedValue(fs.code, [4, 1])
  {
    assert !Carries(fs.code, [4, 1][0]);
    assert [6] + [] == [6] && [] + [6] == [6];
    var fs1 := Jump(fs).0;
    assert fs1 == fs.(code := Loaded() + [Jmp(-1)], jpc := []);
    hide Jump;
    assert CodeLabel(fs1, 3, false, true).code == Loaded() + [Jmp(-1), LoadBool(3, false, true)];
  }

  lemma FaultyPatched()
    ensures PatchList(Materialized(), [4, 1], 9, 3, 7) == Patches()
    ensures !TooFar(Materialized(), [4, 1], 9, 7)
  {
    var c := Materialized();
    var c1 := FixJump(PatchTestReg(c, 4, 3), 4, 7);
    assert c1 == c[4 := Jmp(2)];
    var c2 := FixJump(PatchTestReg(c1, 1, 3), 1, 9);
    assert c2 == Patches();
    assert [4, 1][1..] == [1] && [1][1..] == [];
    assert PatchList(c1, [1], 9, 3, 7) == c2;
  }

  lemma FaultyLast()
    ensures PatchList(Patches(), [6], 9, NO_REG, 9) == Patches()[6 := Jmp(2)]
    ensures !TooFar(Patches(), [6], 9, 9)
  {
    assert FixJump(PatchTestReg(Patches(), 6, NO_REG), 6, 9) == Patches()[6 := Jmp(2)];
    assert [6][1..] == [];
  }

  lemma FaultyGenerated()
    ensures Generate(Fresh(3), Faulty()).code == Patches()[6 := Jmp(2)] + [Return]
    ensures !Generate(Fresh(3), Faulty()).err
  {
    hide Compile, PatchList, TooFar, Discharge2Reg, Materialize, NeedValue, Loaded, Materialized, Patches, BothTests,
         Faulty;
    FaultyCompiled();
    var (fs, d) := Compile(Fresh(3), Faulty());
    FaultyLoad(fs);
    var fs2 := Discharge2Reg(Reserve(fs, 1), d, 3).0;
    FaultyClosed(fs2);
    FaultyPatched();
    FaultyLast();
    assert |Patches()| == 9 && |Loaded()| == 6 && |Materialized()| == 9 by { FaultyLengths(); }
    FaultyEmpty(Patches());
    assert DischargeVars(d) == d && FreeExp(fs, d) == fs;
  }

  lemma FaultyLengths()
    ensures |Patches()| == 9 && |Loaded()| == 6 && |Materialized()| == 9
  {
  }

  lemma FaultyEmpty(c: seq<Instr>)
    ensures PatchList(c, [], 9, 3, 8) == c && !TooFar(c, [], 9, 8)
  {
  }
}
