/** What it means that the code generated for an expression is right, and how that is carried along
    when the generator patches and appends. */
module CodeState {
  import opened LuaCode
  import opened CodeExec
  import opened CodeLists
  import opened CodeMeaning

  /** Where running the expression's code so far ends: the instruction whose register or condition is still
      to be chosen comes after it. */
  function End(fs: FS, d: Desc): int {
    if d.k.VReloc? then |fs.code| - 1 else if d.k.VJmp? then |fs.code| - 2 else |fs.code|
  }

  function All(fs: FS, d: Desc): seq<nat> { d.t + d.f + fs.jpc }

  function Set(l: seq<nat>): set<nat> { set j | j in l }

  function Pend(fs: FS, d: Desc): set<nat> { Set(All(fs, d)) }

  ghost predicate KindOK(fs: FS, d: Desc) {
    match d.k
    case VK(k) => k < |fs.k|
    case VLocal(r) => r < MAXSTACK
    case VNonReloc(r) => r < MAXSTACK
    case VReloc(pc) => pc + 1 == |fs.code| && Relocatable(fs.code[pc]) && fs.jpc == []
    case VJmp(pc) =>
      1 <= pc && pc + 1 == |fs.code| && fs.code[pc - 1].Cmp? && fs.code[pc] == Jmp(NO_JUMP) && fs.jpc == []
    case _ => true
  }

  /** The pending jumps are distinct, before the end, and no test waits for its jump. */
  ghost predicate WF(fs: FS, d: Desc) {
    && !fs.err
    && KindOK(fs, d)
    && Ends(fs.code, End(fs, d))
    && Pending(fs.code, All(fs, d))
    && Below(All(fs, d), End(fs, d))
  }

  ghost predicate Ends(code: seq<Instr>, n: int) {
    0 <= n <= |code| && (n > 0 ==> !IsTest(code[n - 1]))
  }

  ghost predicate Below(l: seq<nat>, n: int) {
    forall j :: j in l ==> j < n
  }

  /** What the jump at j brings along. */
  function HeldBy(code: seq<Instr>, j: nat, r: Regs): Held {
    if Carries(code, j) then Holding(Reg(r, code[j - 1].b)) else Nothing
  }

  /** What the description says about the value when control arrives at the end. */
  ghost predicate FallGood(x: Ctx, fs: FS, d: Desc, v: Value, r: Regs) {
    match d.k
    case VTrue => v == Bool(true)
    case VFalse => v == Bool(false)
    case VK(k) => v == Kst(x, k)
    case VLocal(i) => v == Reg(r, i)
    case VNonReloc(i) => v == Reg(r, i)
    case VReloc(pc) => pc < |fs.code| && v == Result(x, fs.code[pc], r)
    case VJmp(pc) => 1 <= pc <= |fs.code| && IsTest(fs.code[pc - 1]) && v == Bool(Passes(x, fs.code[pc - 1], r))
    case VCond(truth) => Truthy(v) == truth
  }

  /** An outcome of the code that is the way it is to take. */
  ghost predicate Good(x: Ctx, fs: FS, d: Desc, w: Way, free: nat, r: Regs, o: Out) {
    match o
    case Fall(r2) => Same(r, r2, free) && w.Falls? && w.h == Nothing && FallGood(x, fs, d, w.v, r2)
    case Exit(j, r2) =>
      && Same(r, r2, free)
      && w.h == HeldBy(fs.code, j, r2)
      && if j in d.t then w.Exits? && w.truth
         else if j in d.f then w.Exits? && !w.truth
         else j in fs.jpc && w.Falls? && FallGood(x, fs, d, w.v, r2)
    case Bad => false
  }

  /** Running the code from its start, or from a jump that was pending to its start, takes the way it is to take. */
  ghost predicate Runs(x: Ctx, fs0: FS, fs: FS, d: Desc, s: Sem, r: Regs) {
    && 0 <= End(fs, d)
    && Good(x, fs, d, Means(x.ops, s, r, Nothing), fs0.freereg, r,
            Exec(x, fs.code, Pend(fs, d), |fs0.code|, r, End(fs, d)))
    && forall a :: a in fs0.jpc ==>
         Good(x, fs, d, Means(x.ops, s, r, HeldBy(fs0.code, a, r)), fs0.freereg, r,
              Leave(x, fs.code, Pend(fs, d), a, r, End(fs, d)))
  }

  ghost predicate Shape(fs0: FS, fs: FS, d: Desc) {
    && WF(fs, d)
    && Ends(fs0.code, |fs0.code|)
    && Below(fs0.jpc, |fs0.code|)
    && |fs0.code| <= End(fs, d)
    && Evolves(fs0.code, Set(fs0.jpc), fs.code, Pend(fs, d), |fs0.code|)
    && fs.nactvar == fs0.nactvar
    && fs0.k <= fs.k
  }

  /** The code generated from fs0 to fs, described by d, does what s means. */
  ghost predicate Correct(x: Ctx, fs0: FS, fs: FS, d: Desc, s: Sem) {
    && Shape(fs0, fs, d)
    && forall r: Regs :: Runs(x, fs0, fs, d, s, r)
  }

  // ----- one more step of the generator

  lemma EvolvesTransAt(code: seq<Instr>, p: set<nat>, code1: seq<Instr>, p1: set<nat>, code2: seq<Instr>, p2: set<nat>,
                       n: nat, m: nat, i: nat)
    requires Evolves(code, p, code1, p1, n) && Evolves(code1, p1, code2, p2, m) && n <= m
    requires Ends(code, n) && i < n
    ensures EvolvesAt(code, p, code2, p2, n, i)
  {
    assert EvolvesAt(code, p, code1, p1, n, i);
    assert EvolvesAt(code1, p1, code2, p2, m, i);
    if i + 1 < n {
      assert EvolvesAt(code, p, code1, p1, n, i + 1);
      assert EvolvesAt(code1, p1, code2, p2, m, i + 1);
    }
  }

  lemma EvolvesTrans(code: seq<Instr>, p: set<nat>, code1: seq<Instr>, p1: set<nat>, code2: seq<Instr>, p2: set<nat>,
                     n: nat, m: nat)
    requires Evolves(code, p, code1, p1, n) && Evolves(code1, p1, code2, p2, m) && n <= m
    requires Ends(code, n)
    ensures Evolves(code, p, code2, p2, n)
  {
    forall i | 0 <= i < n ensures EvolvesAt(code, p, code2, p2, n, i) {
      EvolvesTransAt(code, p, code1, p1, code2, p2, n, m, i);
    }
  }

  /** Leaving through a jump that was pending to n0, in the old code and in the new. */
  lemma ResumeLeave(x: Ctx, code0: seq<Instr>, p0: set<nat>, n0: nat, code: seq<Instr>, p: set<nat>,
                    code2: seq<Instr>, p2: set<nat>, n: nat, a: nat, r: Regs, end: nat)
    requires Evolves(code0, p0, code, p, n0) && Evolves(code, p, code2, p2, n) && n0 <= n <= end
    requires a in p0 && a < n0
    requires Leave(x, code, p, a, r, n) != Bad
    ensures Leave(x, code2, p2, a, r, end) == Cont(x, code2, p2, n, Leave(x, code, p, a, r, n), end)
  {
    assert EvolvesAt(code0, p0, code, p, n0, a);
    assert EvolvesAt(code, p, code2, p2, n, a);
    if a !in p {
      if a > 0 {
        assert EvolvesAt(code, p, code2, p2, n, a - 1);
        assert EvolvesAt(code0, p0, code, p, n0, a - 1);
      }
      assert Target(code2, a) == Target(code, a);
      assert Carry(code2, a, r) == Carry(code, a, r);
      Resume(x, code, p, code2, p2, n, Target(code, a), Carry(code, a, r), end);
    }
  }

  /** One outcome, continued in the new code, is still the way to take. */
  ghost predicate StepGood(x: Ctx, fs: FS, d: Desc, w: Way, fs2: FS, d2: Desc, w2: Way, free: nat, r: Regs, o: Out)
    requires 0 <= End(fs, d) && 0 <= End(fs2, d2)
  {
    Good(x, fs, d, w, free, r, o) ==>
      Good(x, fs2, d2, w2, free, r, Cont(x, fs2.code, Pend(fs2, d2), End(fs, d), o, End(fs2, d2)))
  }

  /** The static half of a step. */
  ghost predicate Moves(fs: FS, d: Desc, fs2: FS, d2: Desc) {
    && WF(fs2, d2)
    && 0 <= End(fs, d) <= End(fs2, d2)
    && Evolves(fs.code, Pend(fs, d), fs2.code, Pend(fs2, d2), End(fs, d))
    && fs2.nactvar == fs.nactvar
    && fs.k <= fs2.k
  }

  lemma TransferRuns(x: Ctx, fs0: FS, fs: FS, d: Desc, s: Sem, fs2: FS, d2: Desc, s2: Sem, r: Regs)
    requires Shape(fs0, fs, d) && Runs(x, fs0, fs, d, s, r) && Moves(fs, d, fs2, d2)
    requires forall h, o ::
               StepGood(x, fs, d, Means(x.ops, s, r, h), fs2, d2, Means(x.ops, s2, r, h), fs0.freereg, r, o)
    ensures Runs(x, fs0, fs2, d2, s2, r)
  {
    hide Evolves, FallGood, WF, Pend, Exec, Same, Means, HeldBy;
    var o := Exec(x, fs.code, Pend(fs, d), |fs0.code|, r, End(fs, d));
    assert StepGood(x, fs, d, Means(x.ops, s, r, Nothing), fs2, d2, Means(x.ops, s2, r, Nothing), fs0.freereg, r, o);
    Resume(x, fs.code, Pend(fs, d), fs2.code, Pend(fs2, d2), End(fs, d), |fs0.code|, r, End(fs2, d2));
    forall a | a in fs0.jpc
      ensures Good(x, fs2, d2, Means(x.ops, s2, r, HeldBy(fs0.code, a, r)), fs0.freereg, r,
                   Leave(x, fs2.code, Pend(fs2, d2), a, r, End(fs2, d2)))
    {
      var o, h := Leave(x, fs.code, Pend(fs, d), a, r, End(fs, d)), HeldBy(fs0.code, a, r);
      assert StepGood(x, fs, d, Means(x.ops, s, r, h), fs2, d2, Means(x.ops, s2, r, h), fs0.freereg, r, o);
      ResumeLeave(x, fs0.code, Set(fs0.jpc), |fs0.code|, fs.code, Pend(fs, d), fs2.code, Pend(fs2, d2),
                  End(fs, d), a, r, End(fs2, d2));
    }
  }

  lemma Transfer(x: Ctx, fs0: FS, fs: FS, d: Desc, s: Sem, fs2: FS, d2: Desc, s2: Sem)
    requires Correct(x, fs0, fs, d, s) && Moves(fs, d, fs2, d2)
    requires forall r, h, o ::
               StepGood(x, fs, d, Means(x.ops, s, r, h), fs2, d2, Means(x.ops, s2, r, h), fs0.freereg, r, o)
    ensures Correct(x, fs0, fs2, d2, s2)
  {
    hide Runs, StepGood, Evolves, WF, Means;
    EvolvesTrans(fs0.code, Set(fs0.jpc), fs.code, Pend(fs, d), fs2.code, Pend(fs2, d2), |fs0.code|, End(fs, d));
    forall r: Regs ensures Runs(x, fs0, fs2, d2, s2, r) {
      assert Runs(x, fs0, fs, d, s, r);
      TransferRuns(x, fs0, fs, d, s, fs2, d2, s2, r);
    }
  }
}
